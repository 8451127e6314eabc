/** Facts about sorting, draining and ascending sequences of batches. */
module OrderLemmas {
  import opened OrderSpec

  lemma AscendingConcat(less: (Batch, Batch) -> bool, a: seq<Batch>, b: seq<Batch>)
    ensures Ascending(less, a + b) <==>
            Ascending(less, a) && Ascending(less, b) && forall x, y :: x in a && y in b ==> less(x, y)
  {
    var ab := a + b;
    if Ascending(less, ab) {
      forall i, j | 0 <= i < j < |a|
        ensures less(a[i], a[j])
      {
        assert a[i] == ab[i] && a[j] == ab[j];
      }
      forall i, j | 0 <= i < j < |b|
        ensures less(b[i], b[j])
      {
        assert b[i] == ab[|a| + i] && b[j] == ab[|a| + j];
      }
      forall x, y | x in a && y in b
        ensures less(x, y)
      {
        var i :| 0 <= i < |a| && a[i] == x;
        var j :| 0 <= j < |b| && b[j] == y;
        assert ab[i] == x && ab[|a| + j] == y;
      }
    }
  }

  lemma Associate(a: seq<Batch>, b: seq<Batch>, c: seq<Batch>)
    ensures a + (b + c) == (a + b) + c
  {
  }

  lemma RemoveTwice<V>(m: map<nat, V>, a: set<nat>, b: set<nat>)
    ensures m - a - b == m - (a + b)
  {
  }

  lemma TwiceInSequence(bs: seq<Batch>, i: nat, j: nat)
    requires i < j < |bs| && bs[i] == bs[j]
    ensures multiset(bs)[bs[i]] >= 2
  {
    assert bs == bs[..i] + [bs[i]] + bs[i + 1..j] + [bs[j]] + bs[j + 1..];
  }

  // No batch twice, and no two of one arrival number.
  ghost predicate Unique(ms: multiset<Batch>) {
    && (forall b :: b in ms ==> ms[b] == 1)
    && forall a, b :: a in ms && b in ms && a.seqNo == b.seqNo ==> a == b
  }

  lemma SortIsStrict(bs: seq<Batch>)
    requires Unique(multiset(bs))
    ensures Ascending(Before, Sort(bs))
  {
    var r := Sort(bs);
    forall i, j | 0 <= i < j < |r|
      ensures Before(r[i], r[j])
    {
      assert r[i] in multiset(r) && r[j] in multiset(r);
      if r[i] == r[j] {
        TwiceInSequence(r, i, j);
      }
    }
  }

  ghost predicate DistinctTx(bs: seq<Batch>) {
    forall a, b :: a in bs && b in bs && a.txIndex == b.txIndex ==> a == b
  }

  lemma SortMembers(bs: seq<Batch>, b: Batch)
    ensures b in Sort(bs) <==> b in bs
  {
    assert b in multiset(Sort(bs)) <==> b in multiset(bs);
  }

  lemma SortIsKeyStrict(bs: seq<Batch>, slot: nat)
    requires Unique(multiset(bs)) && DistinctTx(bs)
    requires forall b :: b in bs ==> b.slot == slot
    ensures Ascending(KeyLess, Sort(bs))
  {
    SortIsStrict(bs);
    var r := Sort(bs);
    forall i, j | 0 <= i < j < |r|
      ensures KeyLess(r[i], r[j])
    {
      SortMembers(bs, r[i]);
      SortMembers(bs, r[j]);
      assert Before(r[i], r[j]);
    }
  }

  // ----- Drain -----

  // Every list is filed under its slot, and none is empty.
  ghost predicate Filed(m: Slots) {
    forall s :: s in m ==> m[s] != [] && forall b :: b in m[s] ==> b.slot == s
  }

  lemma MinKeyIs(ks: set<nat>, k: nat)
    requires k in ks && forall x :: x in ks ==> k <= x
    ensures MinKey(ks) == k
  {
  }

  // The first slot of a drain, when it is known.
  lemma DrainStep(m: Slots, k: nat)
    requires k in m && forall x :: x in m ==> k <= x
    ensures Drain(m) == Sort(m[k]) + Drain(m - {k})
    ensures |m - {k}| < |m|
  {
    MinKeyIs(m.Keys, k);
    assert |(m - {k}).Keys| == |m.Keys - {k}|;
  }

  lemma RemoveEither<V>(m: map<nat, V>, a: nat, b: nat)
    ensures m - {a} - {b} == m - {b} - {a}
  {
    RemoveTwice(m, {a}, {b});
    RemoveTwice(m, {b}, {a});
    assert {a} + {b} == {b} + {a};
  }

  // Taking out a slot that is not the first does not change which is the first.
  lemma DrainStepWithout(m: Slots, k: nat, first: nat)
    requires first in m && k != first && forall x :: x in m ==> first <= x
    ensures Drain(m - {k}) == Sort(m[first]) + Drain(m - {first} - {k})
  {
    assert first in m - {k} && forall x :: x in m - {k} ==> x in m.Keys;
    DrainStep(m - {k}, first);
    RemoveEither(m, k, first);
  }

  lemma {:induction false} DrainSplit(m: Slots, k: nat)
    requires k in m
    ensures multiset(Drain(m)) == multiset(m[k]) + multiset(Drain(m - {k}))
    decreases |m|
  {
    var first := MinKey(m.Keys);
    DrainStep(m, first);
    if k != first {
      DrainSplit(m - {first}, k);
      DrainStepWithout(m, k, first);
    }
  }

  lemma DrainAt(m: Slots, k: nat)
    ensures multiset(Drain(m)) == multiset(BatchesAt(m, k)) + multiset(Drain(m - {k}))
  {
    if k in m {
      DrainSplit(m, k);
    } else {
      assert m - {k} == m;
    }
  }

  lemma UpdateThenRemove<V>(m: map<nat, V>, k: nat, v: V)
    ensures m[k := v] - {k} == m - {k}
  {
  }

  lemma OneMore(before: multiset<Batch>, after: multiset<Batch>, at: multiset<Batch>, others: multiset<Batch>, b: Batch)
    requires before == at + others && after == at + multiset{b} + others
    ensures after == before + multiset{b}
  {
  }

  lemma DrainBuffer(m: Slots, b: Batch)
    ensures multiset(Drain(m[b.slot := BatchesAt(m, b.slot) + [b]])) == multiset(Drain(m)) + multiset{b}
  {
    var at := BatchesAt(m, b.slot);
    var m' := m[b.slot := at + [b]];
    UpdateThenRemove(m, b.slot, at + [b]);
    DrainAt(m', b.slot);
    DrainAt(m, b.slot);
    assert multiset(BatchesAt(m', b.slot)) == multiset(at) + multiset{b};
    OneMore(multiset(Drain(m)), multiset(Drain(m')), multiset(at), multiset(Drain(m - {b.slot})), b);
  }

  lemma {:induction false} DrainMembers(m: Slots, b: Batch)
    requires Filed(m)
    ensures b in Drain(m) <==> b.slot in m && b in m[b.slot]
    decreases |m|
  {
    if b.slot in m {
      DrainSplit(m, b.slot);
      assert b in Drain(m) <==> b in multiset(Drain(m));
      if b !in m[b.slot] {
        NotInDrain(m - {b.slot}, b);
      }
    } else {
      NotInDrain(m, b);
    }
  }

  lemma {:induction false} NotInDrain(m: Slots, b: Batch)
    requires Filed(m) && b.slot !in m
    ensures b !in Drain(m)
    decreases |m|
  {
    if m != map[] {
      var k := MinKey(m.Keys);
      assert |(m - {k}).Keys| == |m.Keys - {k}|;
      SortMembers(m[k], b);
      NotInDrain(m - {k}, b);
    }
  }

  lemma WithoutFirst(m: Slots, bound: nat, k: nat)
    requires k in m && k < bound
    ensures Front(m, bound) - {k} == Front(m - {k}, bound)
    ensures Back(m, bound) == Back(m - {k}, bound)
  {
    assert SlotsFrom(m - {k}, bound) == SlotsFrom(m, bound);
    RemoveTwice(m, {k}, SlotsFrom(m, bound));
    RemoveTwice(m, SlotsFrom(m, bound), {k});
    assert {k} + SlotsFrom(m, bound) == SlotsFrom(m, bound) + {k};
    RemoveTwice(m, {k}, SlotsBefore(m - {k}, bound));
    assert {k} + SlotsBefore(m - {k}, bound) == SlotsBefore(m, bound);
  }

  // Draining the slots before a bound first does not change what is drained.
  lemma {:induction false} DrainPrefix(m: Slots, bound: nat)
    ensures Drain(m) == Drain(Front(m, bound)) + Drain(Back(m, bound))
    decreases |m|
  {
    if m == map[] || MinKey(m.Keys) >= bound {
      assert SlotsFrom(m, bound) == m.Keys;
      DrainNone(m);
      assert Back(m, bound) == m;
    } else {
      var k := MinKey(m.Keys);
      DrainStep(m, k);
      DrainStep(Front(m, bound), k);
      WithoutFirst(m, bound, k);
      DrainPrefix(m - {k}, bound);
      Associate(Sort(m[k]), Drain(Front(m - {k}, bound)), Drain(Back(m, bound)));
    }
  }

  lemma DrainNone(m: Slots)
    ensures Drain(m - m.Keys) == []
  {
    assert m - m.Keys == map[];
  }

  // Every slot's own list is ascending, once sorted.
  ghost predicate SlotsAscend(less: (Batch, Batch) -> bool, m: Slots) {
    forall s :: s in m ==> Ascending(less, Sort(m[s]))
  }

  // The order of two batches of different slots is that of their slots.
  ghost predicate BySlot(less: (Batch, Batch) -> bool) {
    forall a: Batch, b: Batch :: a.slot < b.slot ==> less(a, b)
  }

  lemma {:induction false} DrainAscending(less: (Batch, Batch) -> bool, m: Slots)
    requires Filed(m) && BySlot(less) && SlotsAscend(less, m)
    ensures Ascending(less, Drain(m))
    decreases |m|
  {
    if m != map[] {
      var k := MinKey(m.Keys);
      var rest := m - {k};
      DrainStep(m, k);
      DrainAscending(less, rest);
      forall x, y | x in Sort(m[k]) && y in Drain(rest)
        ensures less(x, y)
      {
        SortMembers(m[k], x);
        DrainMembers(rest, y);
        assert y.slot in m.Keys && y.slot != k;
      }
      AscendingConcat(less, Sort(m[k]), Drain(rest));
    }
  }

  // Taking the lists of a slot out of a unique drain leaves them unique.
  lemma SlotIsUnique(m: Slots, s: nat)
    requires s in m && Unique(multiset(Drain(m)))
    ensures Unique(multiset(m[s]))
  {
    DrainSplit(m, s);
    var big, small := multiset(Drain(m)), multiset(m[s]);
    forall b | b in small
      ensures small[b] == 1 && b in big
    {
      assert big[b] >= small[b];
    }
  }

  lemma DrainIsStrict(m: Slots)
    requires Filed(m) && Unique(multiset(Drain(m)))
    ensures Ascending(Before, Drain(m))
  {
    forall s | s in m
      ensures Ascending(Before, Sort(m[s]))
    {
      SlotIsUnique(m, s);
      SortIsStrict(m[s]);
    }
    DrainAscending(Before, m);
  }

  lemma DrainIsKeyStrict(m: Slots)
    requires Filed(m) && Unique(multiset(Drain(m)))
    requires forall s :: s in m ==> DistinctTx(m[s])
    ensures Ascending(KeyLess, Drain(m))
  {
    forall s | s in m
      ensures Ascending(KeyLess, Sort(m[s]))
    {
      SlotIsUnique(m, s);
      SortIsKeyStrict(m[s], s);
    }
    DrainAscending(KeyLess, m);
  }
}
