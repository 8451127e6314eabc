/** The three passes of the deduplication as the program runs them, and their composition. */
module LogInstrDedup {
  import opened EventPairing
  import opened EventPairer
  import opened CreateReorder
  import opened ReorderPlaces
  import opened PreferPlaces
  import opened DedupeProofs

  // The places of the old or current swaps of a key, in order.
  function Places(evs: seq<Event>, key: seq<nat>, current: bool): (r: seq<nat>)
    ensures |r| == CountDbc(evs, key, current)
    ensures forall k :: 0 <= k < |r| ==> r[k] < |evs|
  {
    if evs == [] then []
    else
      var n := |evs| - 1;
      Places(evs[..n], key, current) + (if IsDbc(evs[n], key, current) then [n] else [])
  }

  lemma {:induction false} PlacesAreKth(evs: seq<Event>, key: seq<nat>, current: bool, k: nat)
    requires k < CountDbc(evs, key, current)
    ensures Places(evs, key, current)[k] == KthDbc(evs, key, current, k)
  {
    var n := |evs| - 1;
    if k < CountDbc(evs[..n], key, current) {
      PlacesAreKth(evs[..n], key, current, k);
    }
  }

  lemma {:induction false} PlaceOfRank(evs: seq<Event>, key: seq<nat>, current: bool, i: nat)
    requires i < |evs| && IsDbc(evs[i], key, current)
    ensures CountDbc(evs[..i], key, current) < CountDbc(evs, key, current)
    ensures Places(evs, key, current)[CountDbc(evs[..i], key, current)] == i
  {
    var n := |evs| - 1;
    CountDbcPrefix(evs, i, key, current);
    if i < n {
      PlaceOfRank(evs[..n], key, current, i);
      assert evs[..n][..i] == evs[..i];
    }
  }

  lemma {:induction false} RankOfPlace(evs: seq<Event>, key: seq<nat>, current: bool, k: nat)
    requires k < CountDbc(evs, key, current)
    ensures var i := Places(evs, key, current)[k]; IsDbc(evs[i], key, current) && CountDbc(evs[..i], key, current) == k
  {
    var n := |evs| - 1;
    if k < CountDbc(evs[..n], key, current) {
      RankOfPlace(evs[..n], key, current, k);
      var i := Places(evs[..n], key, current)[k];
      assert evs[..n][..i] == evs[..i];
    }
  }

  type Groups = map<seq<nat>, (seq<nat>, seq<nat>)>

  // The old and the current places of a key.
  function GroupOf(groups: Groups, key: seq<nat>): (seq<nat>, seq<nat>) {
    if key in groups then groups[key] else ([], [])
  }

  ghost predicate Grouped(groups: Groups, evs: seq<Event>) {
    forall key: seq<nat> :: GroupOf(groups, key) == (Places(evs, key, false), Places(evs, key, true))
  }

  lemma PlacesNext(evs: seq<Event>, i: nat, key: seq<nat>, current: bool)
    requires i < |evs|
    ensures Places(evs[..i + 1], key, current) ==
            if IsDbc(evs[i], key, current) then Places(evs[..i], key, current) + [i] else Places(evs[..i], key, current)
  {
    assert evs[..i + 1][..i] == evs[..i];
  }

  // The groups after one more event.
  function AddSwap(groups: Groups, e: Event, i: nat): Groups {
    if !e.kind.DbcSwap? then groups
    else
      var group := GroupOf(groups, e.identity);
      groups[e.identity := if e.kind.version == 2 then (group.0, group.1 + [i]) else (group.0 + [i], group.1)]
  }

  lemma GroupNext(groups: Groups, evs: seq<Event>, i: nat)
    requires i < |evs| && Grouped(groups, evs[..i])
    ensures Grouped(AddSwap(groups, evs[i], i), evs[..i + 1])
  {
    forall key: seq<nat>
      ensures GroupOf(AddSwap(groups, evs[i], i), key) == (Places(evs[..i + 1], key, false), Places(evs[..i + 1], key, true))
    {
      PlacesNext(evs, i, key, false);
      PlacesNext(evs, i, key, true);
      assert GroupOf(groups, key) == (Places(evs[..i], key, false), Places(evs[..i], key, true));
    }
  }

  method GroupSwaps(events: seq<Event>) returns (groups: Groups)
    ensures Grouped(groups, events)
  {
    groups := map[];
    for i := 0 to |events|
      invariant Grouped(groups, events[..i])
    {
      GroupNext(groups, events, i);
      if events[i].kind.DbcSwap? {
        var key := events[i].identity;
        var group := if key in groups then groups[key] else ([], []);
        if events[i].kind.version == 2 {
          groups := groups[key := (group.0, group.1 + [i])];
        } else {
          groups := groups[key := (group.0 + [i], group.1)];
        }
      }
    }
    assert events[..|events|] == events;
  }

  // What place `i` holds once the groups in `done` have been treated.
  function Treated(evs: seq<Event>, done: set<seq<nat>>, i: nat): Event
    requires i < |evs|
  {
    var e := evs[i];
    if Matched(evs, e) && IsOld(e) && e.identity in done then
      CountDbcPrefix(evs, i, e.identity, false);
      evs[KthDbc(evs, e.identity, true, CountDbc(evs[..i], e.identity, false))]
    else e
  }

  function Leaves(evs: seq<Event>, done: set<seq<nat>>, i: nat): bool
    requires i < |evs|
  {
    Matched(evs, evs[i]) && IsCurrent(evs[i]) && evs[i].identity in done
  }

  // The first `k` old or current swaps of a key.
  predicate Passed(evs: seq<Event>, key: seq<nat>, current: bool, k: nat, i: nat)
    requires i < |evs|
  {
    IsDbc(evs[i], key, current) && CountDbc(evs[..i], key, current) < k
  }

  lemma PassedNext(evs: seq<Event>, key: seq<nat>, current: bool, k: nat, i: nat)
    requires i < |evs| && k < CountDbc(evs, key, current)
    ensures Passed(evs, key, current, k + 1, i) <==> Passed(evs, key, current, k, i) || i == Places(evs, key, current)[k]
  {
    RankOfPlace(evs, key, current, k);
    if IsDbc(evs[i], key, current) {
      PlaceOfRank(evs, key, current, i);
    }
  }

  lemma PassedAll(evs: seq<Event>, key: seq<nat>, current: bool, i: nat)
    requires i < |evs|
    ensures Passed(evs, key, current, CountDbc(evs, key, current), i) <==> IsDbc(evs[i], key, current)
  {
    if IsDbc(evs[i], key, current) {
      PlaceOfRank(evs, key, current, i);
    }
  }

  // What the k-th old swap of a matched group becomes: the k-th current one, which is itself no old swap.
  lemma KthMakesRoom(evs: seq<Event>, done: set<seq<nat>>, key: seq<nat>, k: nat)
    requires k < CountDbc(evs, key, false) == CountDbc(evs, key, true) && key !in done
    ensures var i, j := Places(evs, key, false)[k], Places(evs, key, true)[k];
            Treated(evs, done + {key}, i) == evs[j] == Treated(evs, done, j) && !IsDbc(evs[j], key, false)
  {
    RankOfPlace(evs, key, false, k);
    RankOfPlace(evs, key, true, k);
    PlacesAreKth(evs, key, true, k);
  }

  lemma TreatedElsewhere(evs: seq<Event>, done: set<seq<nat>>, key: seq<nat>, i: nat)
    requires i < |evs| && key !in done && CountDbc(evs, key, false) == CountDbc(evs, key, true)
    ensures !IsDbc(evs[i], key, false) ==> Treated(evs, done + {key}, i) == Treated(evs, done, i)
    ensures Leaves(evs, done + {key}, i) <==> Leaves(evs, done, i) || IsDbc(evs[i], key, true)
  {
  }

  // The events when the first `k` old swaps of a group have been overwritten, and what is marked then.
  ghost predicate Overwritten(evs: seq<Event>, events: seq<Event>, done: set<seq<nat>>, key: seq<nat>, k: nat) {
    |events| == |evs| &&
    forall i :: 0 <= i < |evs| ==> events[i] == if Passed(evs, key, false, k, i) then Treated(evs, done + {key}, i) else Treated(evs, done, i)
  }

  ghost predicate Marked(evs: seq<Event>, removed: set<nat>, done: set<seq<nat>>, key: seq<nat>, k: nat) {
    forall i :: i in removed <==> 0 <= i < |evs| && (Leaves(evs, done, i) || Passed(evs, key, true, k, i))
  }

  lemma OverwriteOne(evs: seq<Event>, events: seq<Event>, done: set<seq<nat>>, key: seq<nat>, k: nat)
    requires k < CountDbc(evs, key, false) == CountDbc(evs, key, true) && key !in done && Overwritten(evs, events, done, key, k)
    ensures var i, j := Places(evs, key, false)[k], Places(evs, key, true)[k];
            Overwritten(evs, events[i := events[j]], done, key, k + 1)
  {
    var to, from := Places(evs, key, false)[k], Places(evs, key, true)[k];
    KthMakesRoom(evs, done, key, k);
    forall i | 0 <= i < |evs|
      ensures Passed(evs, key, false, k + 1, i) <==> Passed(evs, key, false, k, i) || i == to
    {
      PassedNext(evs, key, false, k, i);
    }
  }

  lemma MarkOne(evs: seq<Event>, removed: set<nat>, done: set<seq<nat>>, key: seq<nat>, k: nat)
    requires k < CountDbc(evs, key, true) && Marked(evs, removed, done, key, k)
    ensures Marked(evs, removed + {Places(evs, key, true)[k]}, done, key, k + 1)
  {
    forall i | 0 <= i < |evs|
      ensures Passed(evs, key, true, k + 1, i) <==> Passed(evs, key, true, k, i) || i == Places(evs, key, true)[k]
    {
      PassedNext(evs, key, true, k, i);
    }
  }

  lemma GroupIsTreated(evs: seq<Event>, done: set<seq<nat>>, key: seq<nat>, i: nat)
    requires i < |evs| && key !in done && CountDbc(evs, key, false) == CountDbc(evs, key, true)
    ensures Treated(evs, done + {key}, i) ==
            if Passed(evs, key, false, CountDbc(evs, key, false), i) then Treated(evs, done + {key}, i) else Treated(evs, done, i)
    ensures Leaves(evs, done + {key}, i) <==> Leaves(evs, done, i) || Passed(evs, key, true, CountDbc(evs, key, true), i)
  {
    PassedAll(evs, key, false, i);
    PassedAll(evs, key, true, i);
    TreatedElsewhere(evs, done, key, i);
  }

  // One matched group: old swaps are overwritten by the current ones, which are marked for removal.
  method TreatGroup(evs: seq<Event>, events: seq<Event>, removed: set<nat>, key: seq<nat>, olds: seq<nat>, current: seq<nat>,
                    ghost done: set<seq<nat>>)
    returns (events': seq<Event>, removed': set<nat>)
    requires |events| == |evs| && key !in done
    requires olds == Places(evs, key, false) && current == Places(evs, key, true) && |olds| == |current|
    requires forall i :: 0 <= i < |evs| ==> events[i] == Treated(evs, done, i)
    requires forall i :: i in removed <==> 0 <= i < |evs| && Leaves(evs, done, i)
    ensures |events'| == |evs|
    ensures forall i :: 0 <= i < |evs| ==> events'[i] == Treated(evs, done + {key}, i)
    ensures forall i :: i in removed' <==> 0 <= i < |evs| && Leaves(evs, done + {key}, i)
  {
    events', removed' := events, removed;
    for k := 0 to |olds|
      invariant Overwritten(evs, events', done, key, k) && Marked(evs, removed', done, key, k)
    {
      OverwriteOne(evs, events', done, key, k);
      MarkOne(evs, removed', done, key, k);
      events' := events'[olds[k] := events'[current[k]]];
      removed' := removed' + {current[k]};
    }
    forall i | 0 <= i < |evs|
      ensures events'[i] == Treated(evs, done + {key}, i) && (i in removed' <==> Leaves(evs, done + {key}, i))
    {
      GroupIsTreated(evs, done, key, i);
    }
  }

  lemma BecomesIs(evs: seq<Event>, i: nat, done: set<seq<nat>>)
    requires i < |evs| && (Matched(evs, evs[i]) ==> evs[i].identity in done)
    ensures Becomes(evs, i) == if Leaves(evs, done, i) then [] else [Treated(evs, done, i)]
  {
  }

  // A group whose key no swap has, or whose two sides differ in number, changes nothing.
  lemma UntreatedGroup(evs: seq<Event>, done: set<seq<nat>>, key: seq<nat>, i: nat)
    requires i < |evs| && CountDbc(evs, key, false) != CountDbc(evs, key, true)
    ensures Treated(evs, done + {key}, i) == Treated(evs, done, i) && Leaves(evs, done + {key}, i) == Leaves(evs, done, i)
  {
  }

  method TreatGroups(evs: seq<Event>, groups: Groups) returns (events: seq<Event>, removed: set<nat>)
    requires Grouped(groups, evs)
    ensures |events| == |evs|
    ensures forall i :: 0 <= i < |evs| ==> events[i] == Treated(evs, groups.Keys, i)
    ensures forall i :: i in removed <==> 0 <= i < |evs| && Leaves(evs, groups.Keys, i)
  {
    events, removed := evs, {};
    var keys := groups.Keys;
    ghost var done: set<seq<nat>> := {};
    while keys != {}
      invariant keys + done == groups.Keys && keys !! done && |events| == |evs|
      invariant forall i :: 0 <= i < |evs| ==> events[i] == Treated(evs, done, i)
      invariant forall i :: i in removed <==> 0 <= i < |evs| && Leaves(evs, done, i)
      decreases |keys|
    {
      var key :| key in keys;
      keys := keys - {key};
      var (olds, current) := groups[key];
      assert (olds, current) == GroupOf(groups, key);
      if |olds| == |current| {
        events, removed := TreatGroup(evs, events, removed, key, olds, current, done);
      } else {
        forall i | 0 <= i < |evs|
          ensures Treated(evs, done + {key}, i) == Treated(evs, done, i) && Leaves(evs, done + {key}, i) == Leaves(evs, done, i)
        {
          UntreatedGroup(evs, done, key, i);
        }
      }
      done := done + {key};
    }
  }

  lemma SwapIsGrouped(evs: seq<Event>, groups: Groups, i: nat)
    requires Grouped(groups, evs) && i < |evs| && evs[i].kind.DbcSwap?
    ensures evs[i].identity in groups.Keys
  {
    PlaceOfRank(evs, evs[i].identity, evs[i].kind.version == 2, i);
  }

  /** Old swaps of matched groups give way to the current ones, which take their places. */
  method PreferCurrent(evs: seq<Event>) returns (out: seq<Event>)
    ensures out == Preferred(evs)
    ensures exists order :: Settles(evs, order, out)
  {
    ghost var _ := PreferredSettles(evs);
    var groups := GroupSwaps(evs);
    var events, removed := TreatGroups(evs, groups);
    out := [];
    for i := 0 to |events|
      invariant out == PreferTo(evs, i)
    {
      if evs[i].kind.DbcSwap? {
        SwapIsGrouped(evs, groups, i);
      }
      BecomesIs(evs, i, groups.Keys);
      if i !in removed {
        out := out + [events[i]];
      } else {
        assert out + [] == out;
      }
    }
  }

  /**
   The whole deduplication: pairing, creates before trades, current swaps for old ones. In the end no
   trade stands before a create of its mint; every log event stands in what its place was merged to;
   and of all these places only the old swaps of matched groups are gone.
   */
  method DedupeLogInstructionEvents(logEvents: seq<Event>, instructionEvents: seq<Event>) returns (out: seq<Event>)
    ensures out == Preferred(Reordered(Paired(logEvents, instructionEvents)))
    ensures CreatesFirst(out, |out|)
    ensures forall i: nat :: i < |logEvents| ==> LogEventStays(logEvents, instructionEvents, i, out)
    ensures forall e: Event :: multiset(out)[e] == Surviving(Paired(logEvents, instructionEvents), e)
    ensures exists middle: seq<Event>, first, last ::
              InPlace(Paired(logEvents, instructionEvents), first, middle) && Settles(middle, last, out)
  {
    var paired, _ := Pair(logEvents, instructionEvents);
    var reordered := Reorder(paired);
    out := PreferCurrent(reordered);
    EndsCreatesFirst(paired);
    forall i: nat | i < |logEvents|
      ensures LogEventStays(logEvents, instructionEvents, i, out)
    {
      LogEventsStay(logEvents, instructionEvents, i);
    }
    forall e: Event
      ensures multiset(out)[e] == Surviving(paired, e)
    {
      OnlyOldSwapsGo(paired, e);
    }
  }
}
