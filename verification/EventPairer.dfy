/** The pairing as the program runs it: maps of counts and of places, updated event by event. */
module EventPairer {
  import opened Prelude
  import opened EventPairing

  type Counts = map<Base, nat>

  function Tally(counts: Counts, b: Base): nat {
    if b in counts then counts[b] else 0
  }

  ghost predicate Tallies(counts: Counts, evs: seq<Event>) {
    && (forall b: Base :: Tally(counts, b) == Count(evs, b))
    && (forall b: Base :: b in counts ==> counts[b] > 0)
  }

  method NextOccurrence(base: Base, counts: Counts) returns (number: nat, next: Counts)
    ensures number == Tally(counts, base) && next == counts[base := number + 1]
  {
    number := if base in counts then counts[base] else 0;
    next := counts[base := number + 1];
  }

  // The key of an event, counting it if it is of a counted base.
  method DedupeKey(evs: seq<Event>, i: nat, counts: Counts) returns (key: Option<Key>, next: Counts)
    requires i < |evs| && Tallies(counts, evs[..i])
    ensures key == KeyAt(evs, i) && Tallies(next, evs[..i + 1])
  {
    next := counts;
    var number := 0;
    var base := BaseOf(evs[i]);
    forall b: Base
      ensures Count(evs[..i + 1], b) == Tally(counts, b) + (if base == Some(b) then 1 else 0)
    {
      CountNext(evs, i, b);
      assert Tally(counts, b) == Count(evs[..i], b);
    }
    if base.Some? {
      number, next := NextOccurrence(base.value, counts);
    }
    key := KeyOf(evs[i], number);
  }

  method IndexLogs(logs: seq<Event>) returns (index: map<Key, nat>, counts: Counts)
    ensures index == LogIndex(logs) && Tallies(counts, logs)
  {
    index, counts := map[], map[];
    for n := 0 to |logs|
      invariant index == LogIndex(logs[..n]) && Tallies(counts, logs[..n])
    {
      assert logs[..n + 1][..n] == logs[..n];
      var key;
      key, counts := DedupeKey(logs, n, counts);
      assert KeyAt(logs[..n + 1], n) == KeyAt(logs, n);
      if key.Some? {
        index := index[key.value := n];
      }
    }
    assert logs[..|logs|] == logs;
  }

  method InstructionKeys(ixs: seq<Event>) returns (keys: seq<Option<Key>>, counts: Counts)
    ensures |keys| == |ixs| && Tallies(counts, ixs)
    ensures forall i :: 0 <= i < |ixs| ==> keys[i] == KeyAt(ixs, i)
  {
    keys, counts := [], map[];
    for n := 0 to |ixs|
      invariant |keys| == n && Tallies(counts, ixs[..n])
      invariant forall i :: 0 <= i < n ==> keys[i] == KeyAt(ixs, i)
    {
      var key;
      key, counts := DedupeKey(ixs, n, counts);
      keys := keys + [key];
    }
    assert ixs[..|ixs|] == ixs;
  }

  // Deletes the keys of one base.
  method DeleteBase(index: map<Key, nat>, base: Base, count: nat) returns (rest: map<Key, nat>)
    ensures rest == map k | k in index && !(k.Occurrence? && k.base == base && k.number < count) :: index[k]
  {
    rest := index;
    for occurrence := 0 to count
      invariant rest == map k | k in index && !(k.Occurrence? && k.base == base && k.number < occurrence) :: index[k]
    {
      rest := rest - {Occurrence(base, occurrence)};
    }
  }

  // The log keys that are left while the bases in `pending` have not been looked at.
  function Left(index: map<Key, nat>, logs: seq<Event>, ixs: seq<Event>, pending: set<Base>): map<Key, nat> {
    map k | k in index && (Trusted(logs, ixs, k) || k.base in pending) :: index[k]
  }

  lemma BalancedStays(index: map<Key, nat>, logs: seq<Event>, ixs: seq<Event>, pending: set<Base>, base: Base)
    requires Balanced(logs, ixs, base)
    ensures Left(index, logs, ixs, pending) == Left(index, logs, ixs, pending - {base})
  {
  }

  lemma UnbalancedGoes(index: map<Key, nat>, logs: seq<Event>, ixs: seq<Event>, pending: set<Base>, base: Base, count: nat)
    requires base in pending && !Balanced(logs, ixs, base)
    requires forall k :: k in index && k.Occurrence? && k.base == base ==> k.number < count
    ensures var left := Left(index, logs, ixs, pending);
            Left(index, logs, ixs, pending - {base}) ==
            map k | k in left && !(k.Occurrence? && k.base == base && k.number < count) :: left[k]
  {
  }

  lemma NumbersAreCounted(logs: seq<Event>, counts: Counts, k: Key)
    requires Tallies(counts, logs) && k in LogIndex(logs) && k.Occurrence?
    ensures k.base in counts && k.number < counts[k.base]
  {
    LogIndexFinds(logs, k);
    assert Tally(counts, k.base) == Count(logs, k.base);
  }

  // A base whose two counts differ keeps no log key.
  method DeleteUnbalanced(index: map<Key, nat>, logCounts: Counts, ixCounts: Counts, ghost logs: seq<Event>, ghost ixs: seq<Event>)
    returns (rest: map<Key, nat>)
    requires index == LogIndex(logs) && Tallies(logCounts, logs) && Tallies(ixCounts, ixs)
    ensures rest == map k | k in index && Trusted(logs, ixs, k) :: index[k]
  {
    rest := index;
    var bases := logCounts.Keys;
    forall k | k in index && k.Occurrence?
      ensures k.base in bases && k.number < logCounts[k.base]
    {
      NumbersAreCounted(logs, logCounts, k);
    }
    while bases != {}
      invariant bases <= logCounts.Keys && rest == Left(index, logs, ixs, bases)
      decreases |bases|
    {
      var base :| base in bases;
      assert Tally(logCounts, base) == Count(logs, base) && Tally(ixCounts, base) == Count(ixs, base);
      if !(base in ixCounts && ixCounts[base] == logCounts[base]) {
        UnbalancedGoes(index, logs, ixs, bases, base, logCounts[base]);
        rest := DeleteBase(rest, base, logCounts[base]);
      } else {
        BalancedStays(index, logs, ixs, bases, base);
      }
      bases := bases - {base};
    }
  }

  /** The output of the pairing, log events first. */
  method Pair(logEvents: seq<Event>, instructionEvents: seq<Event>) returns (out: seq<Event>, ghost slots: seq<nat>)
    ensures out == Paired(logEvents, instructionEvents) && slots == Slots(logEvents, instructionEvents)
    ensures |out| == |logEvents| + |instructionEvents| - Joined(logEvents, slots)
  {
    var indexByKey: map<Key, nat>;
    var logCounts: Counts;
    indexByKey, logCounts := IndexLogs(logEvents);
    var keys, ixCounts := InstructionKeys(instructionEvents);
    indexByKey := DeleteUnbalanced(indexByKey, logCounts, ixCounts, logEvents, instructionEvents);
    out, slots := logEvents, [];
    for i := 0 to |instructionEvents|
      invariant Pass(out, indexByKey, slots) == RunPass(logEvents, instructionEvents, i)
    {
      var ev := instructionEvents[i];
      var place: nat := |out|;
      if keys[i].None? {
        slots := slots + [place];
        out := out + [ev];
      } else if keys[i].value !in indexByKey {
        slots := slots + [place];
        indexByKey := indexByKey[keys[i].value := place];
        out := out + [ev];
      } else {
        var existing := indexByKey[keys[i].value];
        slots := slots + [existing];
        out := out[existing := MergeInto(out[existing], ev)];
      }
    }
    PassConserves(logEvents, instructionEvents, |instructionEvents|);
  }
}
