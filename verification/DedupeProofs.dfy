/** What the three passes of the deduplication leave in the end. */
module DedupeProofs {
  import opened Prelude
  import opened EventPairing
  import opened CreateReorder

  // ----- The last pass keeps creates before trades -----

  ghost predicate NoTradeOf(evs: seq<Event>, e: Event) {
    forall x :: x in evs && IsCreate(e) ==> !IsTradeOf(x, e.mint)
  }

  lemma CreatesFirstNext(evs: seq<Event>, e: Event)
    ensures CreatesFirst(evs + [e], |evs| + 1) <==> CreatesFirst(evs, |evs|) && NoTradeOf(evs, e)
  {
    var longer := evs + [e];
    if CreatesFirst(longer, |longer|) {
      forall x | x in evs && IsCreate(e)
        ensures !IsTradeOf(x, e.mint)
      {
        var t :| 0 <= t < |evs| && evs[t] == x;
        assert longer[t] == x && longer[|evs|] == e;
      }
      assert forall t :: 0 <= t < |evs| ==> longer[t] == evs[t];
    }
  }

  lemma UnmatchedTrades(evs: seq<Event>, all: seq<Event>, e: Event)
    ensures NoTradeOf(Unmatched(evs, all), e) <==> NoTradeOf(evs, e)
  {
    forall x | IsTradeOf(x, e.mint)
      ensures x in Unmatched(evs, all) <==> x in evs
    {
      FilterMembers(evs, Outside(all), x);
    }
  }

  lemma CreatesFirstUnmatchedNext(before: seq<Event>, e: Event, all: seq<Event>)
    requires CreatesFirst(before, |before|) <==> CreatesFirst(Unmatched(before, all), |Unmatched(before, all)|)
    ensures CreatesFirst(before + [e], |before| + 1) <==>
            CreatesFirst(Unmatched(before + [e], all), |Unmatched(before + [e], all)|)
  {
    FilterLast(before, e, Outside(all));
    CreatesFirstNext(before, e);
    if Matched(all, e) {
      assert Unmatched(before, all) + [] == Unmatched(before, all);
    } else {
      CreatesFirstNext(Unmatched(before, all), e);
      UnmatchedTrades(before, all, e);
    }
  }

  // Whether creates come first can be seen from the events outside matched groups.
  lemma {:induction false} CreatesFirstUnmatched(evs: seq<Event>, all: seq<Event>)
    ensures CreatesFirst(evs, |evs|) <==> CreatesFirst(Unmatched(evs, all), |Unmatched(evs, all)|)
  {
    if evs != [] {
      var n := |evs| - 1;
      CreatesFirstUnmatched(evs[..n], all);
      CreatesFirstUnmatchedNext(evs[..n], evs[n], all);
      assert evs == evs[..n] + [evs[n]];
    }
  }

  /** In the end no trade stands before a create of its mint. */
  lemma EndsCreatesFirst(paired: seq<Event>)
    ensures var out := Preferred(Reordered(paired)); CreatesFirst(out, |out|)
  {
    var evs := Reordered(paired);
    ReorderIsRight(paired);
    PreferKeepsOrder(evs, |evs|);
    assert evs[..|evs|] == evs;
    CreatesFirstUnmatched(evs, evs);
    CreatesFirstUnmatched(Preferred(evs), evs);
  }

  // ----- What survives -----

  lemma {:induction false} CountDbcConcat(a: seq<Event>, b: seq<Event>, key: seq<nat>, current: bool)
    ensures CountDbc(a + b, key, current) == CountDbc(a, key, current) + CountDbc(b, key, current)
  {
    if b == [] {
      assert a + b == a;
    } else {
      CountDbcConcat(a, b[..|b| - 1], key, current);
      assert (a + b)[..|a + b| - 1] == a + b[..|b| - 1];
    }
  }

  function Without(evs: seq<Event>, j: nat): seq<Event>
    requires j < |evs|
  {
    evs[..j] + evs[j + 1..]
  }

  lemma TakenOut(evs: seq<Event>, j: nat)
    requires j < |evs|
    ensures evs == evs[..j] + [evs[j]] + evs[j + 1..]
    ensures multiset(evs) == multiset(Without(evs, j)) + multiset{evs[j]}
  {
    assert evs == evs[..j] + [evs[j]] + evs[j + 1..];
  }

  lemma CountWithout(evs: seq<Event>, j: nat, key: seq<nat>, current: bool)
    requires j < |evs|
    ensures CountDbc(evs, key, current) == CountDbc(Without(evs, j), key, current) + CountDbc([evs[j]], key, current)
  {
    TakenOut(evs, j);
    CountDbcConcat(evs[..j] + [evs[j]], evs[j + 1..], key, current);
    CountDbcConcat(evs[..j], [evs[j]], key, current);
    CountDbcConcat(evs[..j], evs[j + 1..], key, current);
  }

  lemma Cancel(a: multiset<Event>, b: multiset<Event>, x: Event)
    requires a + multiset{x} == b + multiset{x}
    ensures a == b
  {
    assert a == a + multiset{x} - multiset{x} && b == b + multiset{x} - multiset{x};
  }

  lemma SameElement(a: seq<Event>, b: seq<Event>) returns (j: nat)
    requires a != [] && multiset(a) == multiset(b)
    ensures j < |b| && b[j] == a[0] && multiset(Without(a, 0)) == multiset(Without(b, j))
  {
    assert a[0] in multiset(b);
    j :| 0 <= j < |b| && b[j] == a[0];
    TakenOut(a, 0);
    TakenOut(b, j);
    Cancel(multiset(Without(a, 0)), multiset(Without(b, j)), a[0]);
  }

  lemma {:induction false} CountDbcPermuted(a: seq<Event>, b: seq<Event>, key: seq<nat>, current: bool)
    requires multiset(a) == multiset(b)
    ensures CountDbc(a, key, current) == CountDbc(b, key, current)
    decreases |a|
  {
    if a == [] {
      assert |b| == |multiset(b)|;
    } else {
      var j := SameElement(a, b);
      CountWithout(a, 0, key, current);
      CountWithout(b, j, key, current);
      CountDbcPermuted(Without(a, 0), Without(b, j), key, current);
    }
  }

  lemma MatchedPermuted(a: seq<Event>, b: seq<Event>, e: Event)
    requires multiset(a) == multiset(b)
    ensures Matched(a, e) <==> Matched(b, e)
  {
    CountDbcPermuted(a, b, e.identity, false);
    CountDbcPermuted(a, b, e.identity, true);
  }

  // How often a paired event is there in the end.
  function Surviving(paired: seq<Event>, e: Event): nat {
    if Matched(paired, e) && IsOld(e) then 0 else multiset(paired)[e]
  }

  /** In the end nothing of what was paired is missing but the old swaps of matched groups, and nothing is new. */
  lemma OnlyOldSwapsGo(paired: seq<Event>, e: Event)
    ensures multiset(Preferred(Reordered(paired)))[e] == Surviving(paired, e)
  {
    ReorderIsRight(paired);
    PreferReplacesOld(Reordered(paired), e);
    MatchedPermuted(paired, Reordered(paired), e);
  }

  // Place `i` of the logs, with every instruction that joined it, is in `out`, unless it is a matched old swap.
  ghost predicate LogEventStays(logs: seq<Event>, ixs: seq<Event>, i: nat, out: seq<Event>)
    requires i < |logs|
  {
    var paired := Paired(logs, ixs);
    exists e :: Holds(logs, ixs, Slots(logs, ixs), i) == Some(e) && (e in out || (Matched(paired, e) && IsOld(e)))
  }

  /** Every log event stands in the end, merged with what joined it, unless it is an old swap of a matched group. */
  lemma LogEventsStay(logs: seq<Event>, ixs: seq<Event>, i: nat)
    requires i < |logs|
    ensures LogEventStays(logs, ixs, i, Preferred(Reordered(Paired(logs, ixs))))
  {
    var paired := Paired(logs, ixs);
    PassConserves(logs, ixs, |ixs|);
    var e := paired[i];
    OnlyOldSwapsGo(paired, e);
    assert e in multiset(paired);
    assert Holds(logs, ixs, Slots(logs, ixs), i) == Some(e);
    assert e in multiset(Preferred(Reordered(paired))) || (Matched(paired, e) && IsOld(e));
  }
}
