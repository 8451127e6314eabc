/** What a subscription remembers, in terms of the updates alone: which it recognises, and for how long. */
module ReplayMemory {
  import opened Prelude
  import opened Fingerprints
  import opened ReplaySpec
  import opened ReplayProofs

  // ----- Identities -----

  /** Two updates about the same thing: one transaction, one block, or one version of one account. */
  predicate SameThing(u: Update, v: Update) {
    match (u, v)
    case (Transaction(_, s), Transaction(_, t)) => s == t
    case (Block(slot, hash), Block(slot', hash')) => slot == slot' && hash == hash'
    case (Account(slot, Some(a)), Account(slot', Some(b))) =>
      a.pubkey == b.pubkey && OrZero(slot) == OrZero(slot') && OrZero(a.writeVersion) == OrZero(b.writeVersion)
    case _ => false
  }

  predicate IsIdentified(u: Update) {
    || (u.Transaction? && u.signature.Some?)
    || u.Block?
    || (u.Account? && u.account.Some? && u.account.value.pubkey.Some?)
  }

  /** For all updates: an update has an identity exactly if it names its thing, and shares it exactly if the things are the same. */
  lemma IdsExactly(u: Update, v: Update)
    ensures IdOf(u).Some? <==> IsIdentified(u)
    ensures IsIdentified(u) ==> (IdOf(u) == IdOf(v) <==> SameThing(u, v))
  {
  }

  // ----- What was noted -----

  // Update `k` was parsed and can be recognised.
  predicate Noted(inputs: seq<Input>, k: nat, cfg: Settings)
    requires k < |inputs|
  {
    OutcomeAt(inputs, k, cfg).Parsed? && IdOf(inputs[k].update).Some? && SlotOf(inputs[k].update).Some?
  }

  function EntryOf(u: Update): Entry
    requires IdOf(u).Some? && SlotOf(u).Some?
  {
    Entry(IdOf(u).value, SlotOf(u).value)
  }

  // The places of the noted updates among the first `k`.
  function Places(inputs: seq<Input>, k: nat, cfg: Settings): seq<nat>
    requires k <= |inputs|
  {
    if k == 0 then []
    else Places(inputs, k - 1, cfg) + if Noted(inputs, k - 1, cfg) then [k - 1] else []
  }

  // The same as entries.
  function Log(inputs: seq<Input>, k: nat, cfg: Settings): seq<Entry>
    requires k <= |inputs|
  {
    if k == 0 then []
    else LogWith(Log(inputs, k - 1, cfg), inputs[k - 1], OutcomeAt(inputs, k - 1, cfg))
  }

  function LogWith(log: seq<Entry>, i: Input, outcome: Outcome): seq<Entry> {
    if outcome.Parsed? && IdOf(i.update).Some? && SlotOf(i.update).Some? then log + [EntryOf(i.update)] else log
  }

  lemma {:induction false} LogIsOfPlaces(inputs: seq<Input>, k: nat, cfg: Settings)
    requires k <= |inputs|
    ensures |Log(inputs, k, cfg)| == |Places(inputs, k, cfg)|
    ensures forall i :: 0 <= i < |Places(inputs, k, cfg)| ==>
              var t := Places(inputs, k, cfg)[i];
              t < k && Noted(inputs, t, cfg) && Log(inputs, k, cfg)[i] == EntryOf(inputs[t].update)
  {
    if k > 0 {
      LogIsOfPlaces(inputs, k - 1, cfg);
    }
  }

  lemma {:induction false} PlacesAscend(inputs: seq<Input>, k: nat, cfg: Settings)
    requires k <= |inputs|
    ensures forall i, j :: 0 <= i < j < |Places(inputs, k, cfg)| ==> Places(inputs, k, cfg)[i] < Places(inputs, k, cfg)[j]
  {
    if k > 0 {
      PlacesAscend(inputs, k - 1, cfg);
      LogIsOfPlaces(inputs, k - 1, cfg);
    }
  }

  lemma PlacesGrow(inputs: seq<Input>, k: nat, cfg: Settings)
    requires 0 < k <= |inputs|
    ensures Places(inputs, k - 1, cfg) <= Places(inputs, k, cfg)
  {
  }

  lemma {:induction false} NotedHasPlace(inputs: seq<Input>, k: nat, t: nat, cfg: Settings)
    requires t < k <= |inputs| && Noted(inputs, t, cfg)
    ensures exists i :: 0 <= i < |Places(inputs, k, cfg)| && Places(inputs, k, cfg)[i] == t
  {
    if t == k - 1 {
      assert Places(inputs, k, cfg)[|Places(inputs, k - 1, cfg)|] == t;
    } else {
      NotedHasPlace(inputs, k - 1, t, cfg);
      PlacesGrow(inputs, k, cfg);
      var i :| 0 <= i < |Places(inputs, k - 1, cfg)| && Places(inputs, k - 1, cfg)[i] == t;
      assert Places(inputs, k, cfg)[i] == t;
    }
  }

  // ----- Eviction -----

  // Without the entries in front that are too old.
  function Fresh(log: seq<Entry>, from: nat): seq<Entry> {
    if log == [] || log[0].slot >= from then log else Fresh(log[1..], from)
  }

  lemma {:induction false} EvictedIsFresh(m: Memory, from: nat)
    ensures Evict(m, from).order == Fresh(m.order, from)
    decreases |m.order|
  {
    if m.order != [] && m.order[0].slot < from {
      EvictedIsFresh(Forget(m, m.order[0]).(order := m.order[1..]), from);
    }
  }

  // Evicting early makes no difference later.
  lemma {:induction false} FreshTwice(log: seq<Entry>, e: Entry, from: nat, from': nat)
    requires from <= from'
    ensures Fresh(Fresh(log, from) + [e], from') == Fresh(log + [e], from')
  {
    if log != [] && log[0].slot < from {
      FreshTwice(log[1..], e, from, from');
      assert (log + [e])[1..] == log[1..] + [e];
    }
  }

  lemma {:induction false} FreshExactly(log: seq<Entry>, from: nat, e: Entry)
    ensures e in Fresh(log, from) <==> exists i, j :: 0 <= i <= j < |log| && log[i].slot >= from && log[j] == e
  {
    if log != [] {
      if log[0].slot >= from {
        if e in log {
          var j :| 0 <= j < |log| && log[j] == e;
          assert log[0].slot >= from && log[j] == e;
        }
      } else {
        FreshExactly(log[1..], from, e);
        TailHasBoth(log, from, e);
      }
    }
  }

  lemma TailHasBoth(log: seq<Entry>, from: nat, e: Entry)
    requires log != [] && log[0].slot < from
    ensures (exists i, j :: 0 <= i <= j < |log| && log[i].slot >= from && log[j] == e) <==>
            exists i, j :: 0 <= i <= j < |log[1..]| && log[1..][i].slot >= from && log[1..][j] == e
  {
    if i, j :| 0 <= i <= j < |log| && log[i].slot >= from && log[j] == e {
      assert log[1..][i - 1].slot >= from && log[1..][j - 1] == e;
    }
    if i, j :| 0 <= i <= j < |log[1..]| && log[1..][i].slot >= from && log[1..][j] == e {
      assert log[i + 1].slot >= from && log[j + 1] == e;
    }
  }

  // ----- What is in the memory -----

  // The highest slot noted, 0 if there is none.
  ghost predicate IsTop(log: seq<Entry>, top: nat) {
    && (forall i :: 0 <= i < |log| ==> log[i].slot <= top)
    && (top > 0 ==> exists i :: 0 <= i < |log| && log[i].slot == top)
  }

  ghost predicate Remembers(s: State, log: seq<Entry>, window: nat) {
    IsTop(log, s.highest) && s.memory.order == Fresh(log, RetainFrom(s.highest, window))
  }

  lemma TopNext(log: seq<Entry>, top: nat, e: Entry)
    requires IsTop(log, top)
    ensures IsTop(log + [e], Max(top, e.slot))
  {
    var next := log + [e];
    assert next[|log|] == e;
    if Max(top, e.slot) == top && top > 0 {
      var i :| 0 <= i < |log| && log[i].slot == top;
      assert next[i].slot == top;
    }
  }

  lemma NotedIsRemembered(s: State, log: seq<Entry>, u: Update, cfg: Settings)
    requires Remembers(s, log, cfg.window) && IdOf(u).Some? && SlotOf(u).Some?
    ensures Remembers(Remember(s, IdOf(u), SlotOf(u), FingerprintOf(u), cfg.window), log + [EntryOf(u)], cfg.window)
  {
    var highest := Max(s.highest, SlotOf(u).value);
    var from, from' := RetainFrom(s.highest, cfg.window), RetainFrom(highest, cfg.window);
    TopNext(log, s.highest, EntryOf(u));
    RetainGrows(s.highest, highest, cfg.window);
    FreshTwice(log, EntryOf(u), from, from');
    EvictedIsFresh(Note(s.memory, IdOf(u).value, SlotOf(u).value, FingerprintOf(u)), from');
  }

  lemma StepRemembers(s: State, log: seq<Entry>, i: Input, cfg: Settings)
    requires Remembers(s, log, cfg.window)
    ensures Remembers(Process(s, i, cfg), LogWith(log, i, OutcomeOf(s.memory, i, cfg)), cfg.window)
  {
    if OutcomeOf(s.memory, i, cfg).Parsed? && IdOf(i.update).Some? && SlotOf(i.update).Some? {
      NotedIsRemembered(s, log, i.update, cfg);
    }
  }

  lemma {:induction false} RunRemembers(inputs: seq<Input>, k: nat, cfg: Settings)
    requires k <= |inputs|
    ensures Remembers(Run(inputs[..k], cfg), Log(inputs, k, cfg), cfg.window)
  {
    if k > 0 {
      RunRemembers(inputs, k - 1, cfg);
      RunNext(inputs, k - 1, cfg);
      StepRemembers(Run(inputs[..k - 1], cfg), Log(inputs, k - 1, cfg), inputs[k - 1], cfg);
    }
  }

  // With replay, what is seen is what the order lists, each identity once.
  ghost predicate Matches(m: Memory) {
    && (forall i :: 0 <= i < |m.order| ==> m.order[i].id in m.seen && m.seen[m.order[i].id] == m.order[i].slot)
    && (forall i, j :: 0 <= i < j < |m.order| ==> m.order[i].id != m.order[j].id)
    && Listed(m.seen, m.order)
  }

  ghost predicate Listed(seen: map<Id, nat>, order: seq<Entry>) {
    forall id :: id in seen ==> Entry(id, seen[id]) in order
  }

  lemma ListedWithoutFirst(seen: map<Id, nat>, order: seq<Entry>)
    requires Listed(seen, order) && order != []
    ensures Listed(seen - {order[0].id}, order[1..])
  {
    assert order == [order[0]] + order[1..];
  }

  lemma ForgetMatches(m: Memory)
    requires Matches(m) && m.order != []
    ensures Matches(Forget(m, m.order[0]).(order := m.order[1..]))
  {
    assert Forget(m, m.order[0]).seen == m.seen - {m.order[0].id};
    ListedWithoutFirst(m.seen, m.order);
  }

  lemma {:induction false} EvictMatches(m: Memory, from: nat)
    requires Matches(m)
    ensures Matches(Evict(m, from))
    decreases |m.order|
  {
    if m.order != [] && m.order[0].slot < from {
      ForgetMatches(m);
      EvictMatches(Forget(m, m.order[0]).(order := m.order[1..]), from);
    }
  }

  lemma NoteMatches(m: Memory, id: Id, slot: nat, fingerprint: Option<Fingerprint>)
    requires Matches(m) && id !in m.seen
    ensures Matches(Note(m, id, slot, fingerprint))
  {
    var n := Note(m, id, slot, fingerprint);
    assert n.order[|m.order|] == Entry(id, slot);
    forall x | x in n.seen
      ensures Entry(x, n.seen[x]) in n.order
    {
      if x != id {
        assert Entry(x, m.seen[x]) in m.order;
      }
    }
  }

  lemma StepMatches(s: State, i: Input, cfg: Settings)
    requires Matches(s.memory) && cfg.replay
    ensures Matches(Process(s, i, cfg).memory)
  {
    var u := i.update;
    if OutcomeOf(s.memory, i, cfg).Parsed? && IdOf(u).Some? && SlotOf(u).Some? {
      var id, slot := IdOf(u).value, SlotOf(u).value;
      NoteMatches(s.memory, id, slot, FingerprintOf(u));
      EvictMatches(Note(s.memory, id, slot, FingerprintOf(u)), RetainFrom(Max(s.highest, slot), cfg.window));
    }
  }

  lemma {:induction false} RunMatches(inputs: seq<Input>, k: nat, cfg: Settings)
    requires k <= |inputs| && cfg.replay
    ensures Matches(Run(inputs[..k], cfg).memory)
  {
    if k > 0 {
      RunMatches(inputs, k - 1, cfg);
      RunNext(inputs, k - 1, cfg);
      StepMatches(Run(inputs[..k - 1], cfg), inputs[k - 1], cfg);
    }
  }

  // ----- Which updates are recognised -----

  // The slot of update `i` is within the window of every slot noted before update `k`.
  ghost predicate IsRecent(inputs: seq<Input>, i: nat, k: nat, cfg: Settings)
    requires i < k <= |inputs|
  {
    && Noted(inputs, i, cfg)
    && forall t :: 0 <= t < k && Noted(inputs, t, cfg) ==>
         SlotOf(inputs[t].update).value <= SlotOf(inputs[i].update).value + cfg.window
  }

  lemma RecentExactly(inputs: seq<Input>, i: nat, k: nat, cfg: Settings)
    requires i < k <= |inputs| && Noted(inputs, i, cfg)
    ensures IsRecent(inputs, i, k, cfg) <==>
            SlotOf(inputs[i].update).value >= RetainFrom(Run(inputs[..k], cfg).highest, cfg.window)
  {
    RunRemembers(inputs, k, cfg);
    LogIsOfPlaces(inputs, k, cfg);
    var log, places, top := Log(inputs, k, cfg), Places(inputs, k, cfg), Run(inputs[..k], cfg).highest;
    forall t | 0 <= t < k && Noted(inputs, t, cfg)
      ensures SlotOf(inputs[t].update).value <= top
    {
      NotedHasPlace(inputs, k, t, cfg);
      var x :| 0 <= x < |places| && places[x] == t;
      assert log[x].slot <= top;
    }
    if top > 0 {
      var x :| 0 <= x < |log| && log[x].slot == top;
      assert Noted(inputs, places[x], cfg) && SlotOf(inputs[places[x]].update).value == top;
    }
  }

  // An earlier update of the same thing was noted, and one no later than that is recent.
  ghost predicate IsKnown(inputs: seq<Input>, k: nat, cfg: Settings)
    requires k < |inputs|
  {
    exists i, j :: 0 <= i <= j < k && IsRecent(inputs, i, k, cfg) && Noted(inputs, j, cfg)
                   && SameThing(inputs[k].update, inputs[j].update)
  }

  lemma SeenIsListed(m: Memory, id: Id)
    requires Matches(m)
    ensures id in m.seen <==> exists slot: nat :: Entry(id, slot) in m.order
  {
    if id in m.seen {
      assert Entry(id, m.seen[id]) in m.order;
    }
  }

  lemma ListedIsKnown(inputs: seq<Input>, k: nat, slot: nat, cfg: Settings)
    requires k < |inputs| && IsIdentified(inputs[k].update)
    requires Entry(IdOf(inputs[k].update).value, slot) in Run(inputs[..k], cfg).memory.order
    ensures IsKnown(inputs, k, cfg)
  {
    var e, s, places := Entry(IdOf(inputs[k].update).value, slot), Run(inputs[..k], cfg), Places(inputs, k, cfg);
    RunRemembers(inputs, k, cfg);
    FreshExactly(Log(inputs, k, cfg), RetainFrom(s.highest, cfg.window), e);
    var x, y :| 0 <= x <= y < |Log(inputs, k, cfg)| && Log(inputs, k, cfg)[x].slot >= RetainFrom(s.highest, cfg.window)
                && Log(inputs, k, cfg)[y] == e;
    PlacesAscend(inputs, k, cfg);
    LogIsOfPlaces(inputs, k, cfg);
    RecentExactly(inputs, places[x], k, cfg);
    IdsExactly(inputs[k].update, inputs[places[y]].update);
    assert places[x] <= places[y];
  }

  lemma KnownIsListed(inputs: seq<Input>, k: nat, i: nat, j: nat, cfg: Settings)
    requires i <= j < k < |inputs| && IsRecent(inputs, i, k, cfg) && Noted(inputs, j, cfg)
    ensures EntryOf(inputs[j].update) in Run(inputs[..k], cfg).memory.order
  {
    var s, places, log := Run(inputs[..k], cfg), Places(inputs, k, cfg), Log(inputs, k, cfg);
    RunRemembers(inputs, k, cfg);
    PlacesAscend(inputs, k, cfg);
    LogIsOfPlaces(inputs, k, cfg);
    NotedHasPlace(inputs, k, i, cfg);
    NotedHasPlace(inputs, k, j, cfg);
    var x :| 0 <= x < |places| && places[x] == i;
    var y :| 0 <= y < |places| && places[y] == j;
    RecentExactly(inputs, i, k, cfg);
    assert x <= y && log[x].slot >= RetainFrom(s.highest, cfg.window) && log[y] == EntryOf(inputs[j].update);
    FreshExactly(log, RetainFrom(s.highest, cfg.window), EntryOf(inputs[j].update));
  }

  lemma SeenExactly(inputs: seq<Input>, k: nat, cfg: Settings)
    requires k < |inputs| && cfg.replay && IsIdentified(inputs[k].update)
    ensures IdOf(inputs[k].update).value in Run(inputs[..k], cfg).memory.seen <==> IsKnown(inputs, k, cfg)
  {
    var m, id := Run(inputs[..k], cfg).memory, IdOf(inputs[k].update).value;
    RunMatches(inputs, k, cfg);
    SeenIsListed(m, id);
    if slot: nat :| Entry(id, slot) in m.order {
      ListedIsKnown(inputs, k, slot, cfg);
    }
    if IsKnown(inputs, k, cfg) {
      var i, j :| 0 <= i <= j < k && IsRecent(inputs, i, k, cfg) && Noted(inputs, j, cfg)
                  && SameThing(inputs[k].update, inputs[j].update);
      KnownIsListed(inputs, k, i, j, cfg);
      IdsExactly(inputs[k].update, inputs[j].update);
    }
  }

  /**
   For every run with replay enabled, and every update that names its thing: it is skipped or refused if
   and only if an earlier update of the same thing was parsed, and that one, or one parsed before it, has
   a slot within the window of all slots so far. So nothing in the window is parsed twice, and what left
   the window is forgotten once everything parsed before it has left too.
   */
  lemma RecognisedExactly(inputs: seq<Input>, k: nat, cfg: Settings)
    requires k < |inputs| && cfg.replay && IsIdentified(inputs[k].update)
    ensures OutcomeAt(inputs, k, cfg).Conflict? || OutcomeAt(inputs, k, cfg).Replayed? <==> IsKnown(inputs, k, cfg)
  {
    RunIsSound(inputs, k, cfg);
    SeenExactly(inputs, k, cfg);
  }

  // ----- The count of skipped updates -----

  function WasSkipped(inputs: seq<Input>, cfg: Settings): nat -> bool {
    (k: nat) => k < |inputs| && OutcomeAt(inputs, k, cfg).Replayed?
  }

  ghost function Skipped(skipped: nat -> bool, n: nat): set<nat> {
    set k: nat | k < n && skipped(k)
  }

  lemma OneMoreSkipped(skipped: nat -> bool, n: nat)
    ensures |Skipped(skipped, n + 1)| == |Skipped(skipped, n)| + if skipped(n) then 1 else 0
  {
    assert Skipped(skipped, n + 1) == Skipped(skipped, n) + if skipped(n) then {n} else {};
  }

  lemma ReplayedNext(inputs: seq<Input>, n: nat, cfg: Settings)
    requires n < |inputs|
    ensures Run(inputs[..n + 1], cfg).replayed == Run(inputs[..n], cfg).replayed + if WasSkipped(inputs, cfg)(n) then 1 else 0
  {
    RunNext(inputs, n, cfg);
  }

  /** Over every run: the counter of replayed updates is the number of those that were skipped as such. */
  lemma {:induction false} SkipsAreCounted(inputs: seq<Input>, n: nat, cfg: Settings)
    requires n <= |inputs|
    ensures Run(inputs[..n], cfg).replayed == |Skipped(WasSkipped(inputs, cfg), n)|
  {
    if n > 0 {
      SkipsAreCounted(inputs, n - 1, cfg);
      ReplayedNext(inputs, n - 1, cfg);
      OneMoreSkipped(WasSkipped(inputs, cfg), n - 1);
    } else {
      assert Skipped(WasSkipped(inputs, cfg), 0) == {};
    }
  }
}
