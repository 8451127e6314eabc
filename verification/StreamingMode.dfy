/**
 StreamingOrdered mode. Emissions are strictly increasing in (slot, index) exactly as long as no
 transaction of a later slot is emitted while batches of slot 0 are still buffered, which the
 guard `currentSlot > 0` permits; slots of at least 1 are never affected.
 */
module StreamingMode {
  import opened Prelude
  import opened OrderSpec
  import opened OrderLemmas
  import opened OrderProofs

  ghost predicate Placed(st: State) {
    Numbered(st.pushed) && Filed(st.slots) && Accounted(st) <= multiset(st.pushed)
  }

  // Only the current slot is live; slot 0 may have been left behind.
  ghost predicate Near(st: State) {
    && (forall s :: s in st.slots || s in st.watermarks ==> s == 0 || s == st.currentSlot)
    && (forall s :: s in st.slots ==> DistinctTx(st.slots[s]))
  }

  // The current slot: emissions below the watermark, buffered batches strictly above it.
  ghost predicate Gate(st: State) {
    var c := st.currentSlot;
    && st.pending == TxOf(BatchesAt(st.slots, c))
    && (forall h :: h in BatchesAt(st.slots, c) ==> h.txIndex > Expected(st, c))
    && (forall e :: e in st.emitted ==> Passed(st, e))
    && (Expected(st, c) > 0 ==> exists e :: e in st.emitted && e.slot == c && e.txIndex + 1 == Expected(st, c))
  }

  ghost predicate Window(st: State) {
    Placed(st) && Near(st) && Gate(st)
  }

  ghost predicate Passed(st: State, e: Batch) {
    e.slot < st.currentSlot || (e.slot == st.currentSlot && e.txIndex < Expected(st, st.currentSlot))
  }

  ghost predicate StreamingInv(st: State) {
    Sound(st) && Window(st) && CurrentIsHighest(st) && st.micro == []
  }

  // What has been emitted, followed by what is buffered, is strictly increasing.
  ghost predicate Increasing(st: State) {
    Ascending(KeyLess, st.emitted + Drain(st.slots))
  }

  lemma DrainIncreases(st: State)
    requires Window(st)
    ensures Ascending(KeyLess, Drain(st.slots))
  {
    PartsAreUnique(st);
    DrainIsKeyStrict(st.slots);
  }

  lemma IncreasingParts(st: State)
    requires Window(st)
    ensures Increasing(st) <==> Ascending(KeyLess, st.emitted)
                                && forall e, h :: e in st.emitted && h in Drain(st.slots) ==> KeyLess(e, h)
  {
    DrainIncreases(st);
    AscendingConcat(KeyLess, st.emitted, Drain(st.slots));
  }

  // ----- Entering a slot -----

  lemma FlushEverything(st: State, slot: nat)
    requires Window(st) && st.currentSlot < slot
    ensures Front(st.slots, slot) == st.slots && Back(st.slots, slot) == map[]
  {
    assert SlotsFrom(st.slots, slot) == {} && SlotsBefore(st.slots, slot) == st.slots.Keys;
    RemoveNoneOrAll(st.slots);
  }

  lemma RemoveNoneOrAll(m: Slots)
    ensures m - {} == m && m - m.Keys == map[]
  {
  }

  // The parts after entering a later slot.
  lemma EnterLater(st: State, slot: nat, now: real)
    requires Window(st) && st.currentSlot < slot
    ensures var end := EnterSlot(st, slot, now);
            && end.currentSlot == slot && end.pending == {} && end.micro == st.micro && end.dropped == st.dropped
            && (st.currentSlot > 0 ==> end.emitted == st.emitted + Drain(st.slots) && end.slots == map[] && end.watermarks == map[])
            && (st.currentSlot == 0 ==> end.emitted == st.emitted && end.slots == st.slots && end.watermarks == st.watermarks)
  {
    FlushEverything(st, slot);
    var flushed := FlushBefore(StreamingOrdered, st, slot, now);
    assert forall s :: s in flushed.watermarks ==> s < slot;
    assert flushed.watermarks - (set s | s in flushed.watermarks && s < slot) == map[];
  }

  lemma EnterKeepsGate(st: State, slot: nat, now: real)
    requires Window(st) && st.currentSlot < slot
    ensures Gate(EnterSlot(st, slot, now))
  {
    EnterLater(st, slot, now);
    var end := EnterSlot(st, slot, now);
    assert BatchesAt(end.slots, slot) == [] && Expected(end, slot) == 0;
    forall e | e in end.emitted
      ensures Passed(end, e)
    {
      if e in st.emitted {
        assert Passed(st, e);
      } else {
        DrainMembers(st.slots, e);
      }
    }
  }

  lemma EnterKeepsWindow(st: State, slot: nat, now: real)
    requires Window(st) && st.currentSlot <= slot
    ensures Window(EnterSlot(st, slot, now))
  {
    if st.currentSlot < slot {
      EnterKeepsGate(st, slot, now);
      EnterLater(st, slot, now);
      EnterSlotAccounts(st, slot, now);
    }
  }

  lemma EnterKeepsIncreasing(st: State, slot: nat, now: real)
    requires Window(st) && st.currentSlot <= slot
    ensures Increasing(EnterSlot(st, slot, now)) <==> Increasing(st)
  {
    if st.currentSlot < slot {
      EnterLater(st, slot, now);
      assert Drain(map[]) == [];
      assert st.currentSlot > 0 ==> st.emitted + Drain(st.slots) + [] == st.emitted + Drain(st.slots);
    }
  }

  // ----- Placing a batch in the current slot -----

  // Held batches come after everything emitted from their slot.
  lemma ExpectedIsNext(st: State, b: Batch)
    requires Window(st) && b.slot == st.currentSlot && b.txIndex >= Expected(st, b.slot)
    ensures forall e :: e in st.emitted ==> KeyLess(e, b)
  {
    forall e | e in st.emitted
      ensures KeyLess(e, b)
    {
      assert Passed(st, e);
    }
  }

  lemma HoldKeepsGate(st: State, b: Batch)
    requires Gate(st) && b.slot == st.currentSlot && b.txIndex > Expected(st, b.slot)
    ensures Gate(Hold(st, b))
  {
    var at := BatchesAt(st.slots, b.slot);
    assert BatchesAt(Hold(st, b).slots, b.slot) == at + [b];
    assert TxOf(at + [b]) == TxOf(at) + {b.txIndex};
    forall e | e in st.emitted
      ensures Passed(Hold(st, b), e)
    {
      assert Passed(st, e);
    }
  }

  lemma HoldStaysDistinct(st: State, b: Batch)
    requires Near(st) && Gate(st) && b.slot == st.currentSlot && b.txIndex !in st.pending
    ensures Near(Hold(st, b))
  {
    var at := BatchesAt(st.slots, b.slot);
    forall x | x in at
      ensures x.txIndex != b.txIndex
    {
      assert x.txIndex in TxOf(at);
    }
  }

  lemma HoldKeepsWindow(st: State, b: Batch)
    requires Window(st) && b.slot == st.currentSlot && b.txIndex > Expected(st, b.slot) && b.txIndex !in st.pending
    requires Accounted(st) + multiset{b} <= multiset(st.pushed)
    ensures Window(Hold(st, b))
  {
    HoldKeepsGate(st, b);
    HoldStaysDistinct(st, b);
    BufferAccounts(st, b);
    SameParts(Hold(st, b), Buffer(st, b));
  }

  lemma HoldMembers(st: State, b: Batch, h: Batch)
    ensures h in Drain(Hold(st, b).slots) <==> h == b || h in Drain(st.slots)
  {
    DrainBuffer(st.slots, b);
    assert h in Drain(Hold(st, b).slots) <==> h in multiset(Drain(Hold(st, b).slots));
    assert h in Drain(st.slots) <==> h in multiset(Drain(st.slots));
  }

  lemma HoldKeepsIncreasing(st: State, b: Batch)
    requires Window(st) && Window(Hold(st, b))
    requires b.slot == st.currentSlot && b.txIndex > Expected(st, b.slot)
    ensures Increasing(Hold(st, b)) <==> Increasing(st)
  {
    IncreasingParts(st);
    IncreasingParts(Hold(st, b));
    ExpectedIsNext(st, b);
    HoldCrosses(st.emitted, st, b);
  }

  // Emissions come before all that is held with `b` if they do before all that was held, and before `b`.
  lemma HoldCrosses(emitted: seq<Batch>, st: State, b: Batch)
    requires forall e :: e in emitted ==> KeyLess(e, b)
    ensures (forall e, h :: e in emitted && h in Drain(Hold(st, b).slots) ==> KeyLess(e, h))
            <==> (forall e, h :: e in emitted && h in Drain(st.slots) ==> KeyLess(e, h))
  {
    forall h
      ensures h in Drain(Hold(st, b).slots) <==> h == b || h in Drain(st.slots)
    {
      HoldMembers(st, b, h);
    }
  }

  // ----- Releasing -----

  // The buffered batches of the slot in order: those released, and those that stay.
  lemma HeldIsOrdered(st: State, b: Batch)
    requires Window(st) && b.slot == st.currentSlot
    ensures var held := Held(st, b.slot);
            && Ascending(KeyLess, held)
            && (forall h :: h in held ==> h.slot == b.slot && h.txIndex > Expected(st, b.slot) && h in BatchesAt(st.slots, b.slot))
  {
    var at := BatchesAt(st.slots, b.slot);
    forall h | h in Sort(at)
      ensures h in at
    {
      SortMembers(at, h);
    }
    if b.slot in st.slots {
      PartsAreUnique(st);
      SlotIsUnique(st.slots, b.slot);
      SortIsKeyStrict(at, b.slot);
    }
  }

  // What stays lies above the new watermark.
  lemma {:induction false} ReleaseLeavesGap(held: seq<Batch>, slot: nat, next: nat)
    requires Ascending(KeyLess, held) && forall h :: h in held ==> h.slot == slot && h.txIndex >= next
    ensures var n := ReleaseCount(held, next);
            forall h :: h in held[n..] ==> h.txIndex > next + n
  {
    var n := ReleaseCount(held, next);
    forall h | h in held[n..]
      ensures h.txIndex > next + n
    {
      var i :| n <= i < |held| && held[i] == h;
      if n > 0 {
        assert KeyLess(held[n - 1], held[n]);
      }
      assert held[n] in held;
      if i > n {
        assert KeyLess(held[n], held[i]);
      }
    }
  }

  lemma PendingAfterRelease(held: seq<Batch>, n: nat)
    requires n <= |held| && DistinctTx(held) && Ascending(KeyLess, held)
    ensures TxOf(held) - TxOf(held[..n]) == TxOf(held[n..])
  {
    forall i, j | 0 <= i < n <= j < |held|
      ensures held[i].txIndex != held[j].txIndex
    {
      assert KeyLess(held[i], held[j]);
    }
    forall t | t in TxOf(held) && t !in TxOf(held[..n])
      ensures t in TxOf(held[n..])
    {
      var x :| x in held && x.txIndex == t;
      assert held == held[..n] + held[n..];
    }
    forall t | t in TxOf(held[n..])
      ensures t in TxOf(held) && t !in TxOf(held[..n])
    {
      var x :| x in held[n..] && x.txIndex == t;
      var j :| n <= j < |held| && held[j] == x;
      forall y | y in held[..n]
        ensures y.txIndex != t
      {
        var i :| 0 <= i < n && held[i] == y;
      }
    }
  }

  // What a release does to the parts that matter, `held` being the slot's buffer in order.
  ghost predicate Releases(st: State, b: Batch, held: seq<Batch>, n: nat, end: State) {
    && n <= |held|
    && end.emitted == st.emitted + ([b] + held[..n]) && end.currentSlot == st.currentSlot
    && end.pending == st.pending - TxOf(held[..n])
    && BatchesAt(end.slots, b.slot) == held[n..] && Expected(end, b.slot) == b.txIndex + 1 + n
    && (forall s :: s != b.slot ==> BatchesAt(end.slots, s) == BatchesAt(st.slots, s))
  }

  // The window seen from a batch that is next in its slot.
  ghost predicate NextInSlot(st: State, b: Batch, held: seq<Batch>) {
    && b.slot == st.currentSlot && b.txIndex == Expected(st, b.slot)
    && (forall e :: e in st.emitted ==> KeyLess(e, b))
    && (forall h :: h in held ==> KeyLess(b, h) && h.slot == b.slot)
    && Ascending(KeyLess, held) && DistinctTx(held)
  }

  lemma SettleParts(st: State, b: Batch, held: seq<Batch>, n: nat)
    requires n <= |held|
    ensures Releases(st, b, held, n, Settle(st, b, held, n))
  {
  }

  lemma WindowNext(st: State, b: Batch)
    requires Window(st) && b.slot == st.currentSlot && b.txIndex == Expected(st, b.slot)
    ensures NextInSlot(st, b, Held(st, b.slot))
  {
    var at := BatchesAt(st.slots, b.slot);
    HeldIsOrdered(st, b);
    ExpectedIsNext(st, b);
    SortKeepsTx(at);
  }

  lemma SortKeepsTx(bs: seq<Batch>)
    ensures TxOf(Sort(bs)) == TxOf(bs)
    ensures DistinctTx(Sort(bs)) <==> DistinctTx(bs)
  {
    forall b: Batch
      ensures b in Sort(bs) <==> b in bs
    {
      SortMembers(bs, b);
    }
  }

  lemma ReleasedArePassed(st: State, b: Batch, held: seq<Batch>, n: nat, end: State, e: Batch)
    requires NextInSlot(st, b, held) && Releases(st, b, held, n, end) && n == ReleaseCount(held, b.txIndex + 1)
    requires e in end.emitted
    ensures Passed(end, e)
  {
    if e in held[..n] {
      var i :| 0 <= i < n && held[i] == e;
      assert e in held;
    }
  }

  lemma LastReleased(st: State, b: Batch, held: seq<Batch>, n: nat, end: State)
    requires NextInSlot(st, b, held) && Releases(st, b, held, n, end) && n == ReleaseCount(held, b.txIndex + 1)
    ensures exists e :: e in end.emitted && e.slot == b.slot && e.txIndex + 1 == Expected(end, b.slot)
  {
    if n == 0 {
      assert b in end.emitted;
    } else {
      var last := held[n - 1];
      assert last in held && last in held[..n] && last in end.emitted;
    }
  }

  // What is left behind is pending, and lies above the new watermark.
  lemma ReleaseLeavesPending(st: State, b: Batch, held: seq<Batch>, n: nat, end: State)
    requires NextInSlot(st, b, held) && Releases(st, b, held, n, end) && n == ReleaseCount(held, b.txIndex + 1)
    requires st.pending == TxOf(held)
    ensures end.pending == TxOf(BatchesAt(end.slots, end.currentSlot))
    ensures forall h :: h in BatchesAt(end.slots, end.currentSlot) ==> h.txIndex > Expected(end, end.currentSlot)
  {
    ReleaseLeavesGap(held, b.slot, b.txIndex + 1);
    PendingAfterRelease(held, n);
  }

  lemma ReleaseKeepsGate(st: State, b: Batch, held: seq<Batch>, n: nat, end: State)
    requires NextInSlot(st, b, held) && Releases(st, b, held, n, end) && n == ReleaseCount(held, b.txIndex + 1)
    requires st.pending == TxOf(held)
    ensures Gate(end)
  {
    ReleaseLeavesPending(st, b, held, n, end);
    LastReleased(st, b, held, n, end);
    forall e | e in end.emitted
      ensures Passed(end, e)
    {
      ReleasedArePassed(st, b, held, n, end, e);
    }
  }

  lemma ReleaseStaysDistinct(st: State, b: Batch, held: seq<Batch>, n: nat, end: State)
    requires Near(st) && NextInSlot(st, b, held) && Releases(st, b, held, n, end)
    ensures forall s :: s in end.slots ==> DistinctTx(end.slots[s])
  {
    forall s | s in end.slots
      ensures DistinctTx(end.slots[s])
    {
      assert BatchesAt(end.slots, s) == end.slots[s];
      if s == b.slot {
        assert forall x :: x in held[n..] ==> x in held;
      } else {
        assert end.slots[s] == BatchesAt(st.slots, s);
      }
    }
  }

  lemma SettleKeepsNear(st: State, b: Batch, held: seq<Batch>, n: nat)
    requires Near(st) && n <= |held| && NextInSlot(st, b, held)
    ensures Near(Settle(st, b, held, n))
  {
    SettleParts(st, b, held, n);
    ReleaseStaysDistinct(st, b, held, n, Settle(st, b, held, n));
  }

  lemma SettleKeepsWindow(st: State, b: Batch, held: seq<Batch>, n: nat, end: State)
    requires Window(st) && NextInSlot(st, b, held) && n == ReleaseCount(held, b.txIndex + 1) && end == Settle(st, b, held, n)
    requires multiset(held) == multiset(BatchesAt(st.slots, b.slot)) && TxOf(held) == st.pending
    requires Accounted(st) + multiset{b} <= multiset(st.pushed)
    ensures Window(end)
  {
    SettleParts(st, b, held, n);
    SettleAccounts(st, b, held, n);
    assert forall x :: x in held[n..] ==> x in held;
    SettleKeepsFiled(st, b, held, n);
    SettleKeepsNear(st, b, held, n);
    ReleaseKeepsGate(st, b, held, n, end);
  }

  lemma ReadyToSettle(st: State, b: Batch)
    requires Window(st) && b.slot == st.currentSlot && b.txIndex == Expected(st, b.slot)
    ensures var held := Held(st, b.slot);
            NextInSlot(st, b, held) && multiset(held) == multiset(BatchesAt(st.slots, b.slot)) && TxOf(held) == st.pending
  {
    WindowNext(st, b);
    SortKeepsTx(BatchesAt(st.slots, b.slot));
  }

  lemma ReleaseKeepsWindow(st: State, b: Batch)
    requires Window(st) && b.slot == st.currentSlot && b.txIndex == Expected(st, b.slot)
    requires Accounted(st) + multiset{b} <= multiset(st.pushed)
    ensures Window(Release(st, b))
  {
    ReadyToSettle(st, b);
    SettleKeepsWindow(st, b, Held(st, b.slot), Following(st, b), Release(st, b));
  }

  lemma BehindIsHeld(st: State, h: Batch)
    requires Filed(st.slots) && h in Behind(st)
    ensures h in Drain(st.slots)
  {
    DrainMembers(st.slots, h);
  }

  lemma BehindOrAfter(st: State, e: Batch, h: Batch)
    requires Window(st) && e in st.emitted && h in Drain(st.slots)
    ensures h in Behind(st) || KeyLess(e, h)
  {
    DrainMembers(st.slots, h);
    assert Passed(st, e);
  }

  // Emissions are always before what the current slot holds; only a slot 0 left behind can be overtaken.
  lemma IncreasingMeans(st: State)
    requires Window(st)
    ensures Increasing(st) <==> Ascending(KeyLess, st.emitted)
                                && forall e, h :: e in st.emitted && h in Behind(st) ==> KeyLess(e, h)
  {
    IncreasingParts(st);
    forall e, h | e in st.emitted && h in Drain(st.slots)
      ensures h in Behind(st) || KeyLess(e, h)
    {
      BehindOrAfter(st, e, h);
    }
    forall h | h in Behind(st)
      ensures h in Drain(st.slots)
    {
      BehindIsHeld(st, h);
    }
  }

  // Batches of slot 0 still buffered after a later slot has begun.
  function Behind(st: State): seq<Batch> {
    if st.currentSlot > 0 then BatchesAt(st.slots, 0) else []
  }

  lemma ReleasedAscend(st: State, b: Batch, held: seq<Batch>, n: nat, end: State)
    requires NextInSlot(st, b, held) && Releases(st, b, held, n, end)
    ensures Ascending(KeyLess, end.emitted) <==> Ascending(KeyLess, st.emitted)
  {
    var more := [b] + held[..n];
    forall h | h in held[..n]
      ensures KeyLess(b, h)
    {
      assert h in held;
    }
    AscendingConcat(KeyLess, [b], held[..n]);
    forall e, x | e in st.emitted && x in more
      ensures KeyLess(e, x)
    {
      assert KeyLess(e, b) && (x == b || KeyLess(b, x));
    }
    AscendingConcat(KeyLess, st.emitted, more);
  }

  lemma ReleasedOvertakes(st: State, b: Batch, held: seq<Batch>, n: nat, end: State)
    requires NextInSlot(st, b, held) && Releases(st, b, held, n, end)
    requires Behind(st) != [] && Filed(st.slots)
    ensures exists e, h :: e in end.emitted && h in Behind(end) && !KeyLess(e, h)
  {
    var h := Behind(st)[0];
    assert Behind(end) == Behind(st);
    assert b in end.emitted && h in Behind(end) && h.slot == 0;
    assert !KeyLess(b, h);
  }

  lemma ReleaseIncreasing(st: State, b: Batch, held: seq<Batch>, n: nat, end: State)
    requires Window(st) && Window(end)
    requires NextInSlot(st, b, held) && Releases(st, b, held, n, end)
    ensures Increasing(end) <==> Increasing(st) && Behind(st) == []
  {
    IncreasingMeans(st);
    IncreasingMeans(end);
    ReleasedAscend(st, b, held, n, end);
    BehindIsKept(st, b, held, n, end);
    if Behind(st) != [] {
      ReleasedOvertakes(st, b, held, n, end);
    }
  }

  /** A release breaks the order exactly when batches of slot 0 are still buffered behind a later slot. */
  lemma ReleaseBreaksExactly(st: State, b: Batch)
    requires Window(st) && b.slot == st.currentSlot && b.txIndex == Expected(st, b.slot)
    requires Accounted(st) + multiset{b} <= multiset(st.pushed)
    ensures Increasing(Release(st, b)) <==> Increasing(st) && Behind(st) == []
  {
    var held := Held(st, b.slot);
    var n := Following(st, b);
    WindowNext(st, b);
    SettleParts(st, b, held, n);
    ReleaseKeepsWindow(st, b);
    ReleaseIncreasing(st, b, held, n, Release(st, b));
  }

  lemma BehindIsKept(st: State, b: Batch, held: seq<Batch>, n: nat, end: State)
    requires NextInSlot(st, b, held) && Releases(st, b, held, n, end)
    ensures Behind(end) == Behind(st)
  {
  }

  // ----- A pushed transaction -----

  /** The one case that breaks the order, as a caller could see it before the push. */
  ghost predicate Overtakes(st: State, b: Batch) {
    && b.slot > 0 && BatchesAt(st.slots, 0) != []
    && (st.currentSlot == 0 || b.slot == st.currentSlot)
    && b.txIndex == Expected(st, b.slot)
  }

  lemma PlaceReleases(st: State, b: Batch)
    requires Window(st) && b.slot == st.currentSlot && b.txIndex == Expected(st, b.slot)
    requires Accounted(st) + multiset{b} <= multiset(st.pushed)
    ensures Window(Place(st, b))
  {
    ReleaseKeepsWindow(st, b);
  }

  lemma PlaceHolds(st: State, b: Batch)
    requires Window(st) && b.slot == st.currentSlot && b.txIndex > Expected(st, b.slot) && b.txIndex !in st.pending
    requires Accounted(st) + multiset{b} <= multiset(st.pushed)
    ensures Window(Place(st, b))
  {
    HoldKeepsWindow(st, b);
  }

  lemma PlaceKeepsWindow(st: State, b: Batch)
    requires Window(st) && b.slot == st.currentSlot
    requires Accounted(st) + multiset{b} <= multiset(st.pushed)
    ensures Window(Place(st, b))
  {
    var expected := Expected(st, b.slot);
    if b.txIndex == expected {
      PlaceReleases(st, b);
    } else if b.txIndex > expected && b.txIndex !in st.pending {
      PlaceHolds(st, b);
    } else {
      DropKeepsWindow(st, b);
    }
  }

  lemma DropKeepsWindow(st: State, b: Batch)
    requires Window(st) && Accounted(st) + multiset{b} <= multiset(st.pushed)
    ensures Window(Drop(st, b)) && (Increasing(Drop(st, b)) <==> Increasing(st))
  {
    DropAccounts(st, b);
    forall e | e in st.emitted
      ensures Passed(Drop(st, b), e)
    {
      assert Passed(st, e);
    }
  }

  lemma PlaceIncreasing(st: State, b: Batch)
    requires Window(st) && b.slot == st.currentSlot
    requires Accounted(st) + multiset{b} <= multiset(st.pushed)
    ensures Increasing(Place(st, b)) <==> Increasing(st) && !(Behind(st) != [] && b.txIndex == Expected(st, b.slot))
  {
    PlaceKeepsWindow(st, b);
    if b.txIndex == Expected(st, b.slot) {
      ReleaseBreaksExactly(st, b);
    } else if b.txIndex > Expected(st, b.slot) && b.txIndex !in st.pending {
      HoldKeepsIncreasing(st, b);
    } else {
      DropKeepsWindow(st, b);
    }
  }

  lemma SameWindow(a: State, b: State)
    requires Window(b) && Numbered(a.pushed) && b.pushed <= a.pushed
    requires a == b.(pushed := a.pushed)
    ensures Window(a) && (Increasing(a) <==> Increasing(b))
  {
    SameParts(a, b);
    assert a.pushed == b.pushed + a.pushed[|b.pushed|..];
    forall e | e in b.emitted
      ensures Passed(a, e)
    {
      assert Passed(b, e);
    }
  }

  // The state in which a transaction is placed: it is recorded, and its slot is current.
  function Arrived(st: State, b: Batch, now: real): State {
    EnterSlot(st.(pushed := st.pushed + [b]), b.slot, now)
  }

  lemma ArrivedIsReady(st: State, b: Batch, now: real)
    requires StreamingInv(st) && b.seqNo == |st.pushed| && b.slot >= st.currentSlot
    ensures var end := Arrived(st, b, now);
            && Window(end) && (Increasing(end) <==> Increasing(st))
            && end.currentSlot == b.slot && Accounted(end) + multiset{b} == multiset(end.pushed) && end.micro == []
            && end.pushed == st.pushed + [b]
  {
    var st1 := st.(pushed := st.pushed + [b]);
    SameWindow(st1, st);
    SameParts(st1, st);
    EnterKeepsWindow(st1, b.slot, now);
    EnterKeepsIncreasing(st1, b.slot, now);
    EnterSlotAccounts(st1, b.slot, now);
  }

  lemma ArrivedOvertakes(st: State, b: Batch, now: real)
    requires StreamingInv(st) && b.seqNo == |st.pushed| && b.slot >= st.currentSlot
    ensures var end := Arrived(st, b, now);
            Overtakes(st, b) <==> Behind(end) != [] && b.txIndex == Expected(end, b.slot)
  {
    var st1 := st.(pushed := st.pushed + [b]);
    if b.slot > st.currentSlot {
      SameWindow(st1, st);
      EnterLater(st1, b.slot, now);
    }
  }

  lemma PlaceKeepsRest(st: State, b: Batch)
    ensures var end := Place(st, b); end.micro == st.micro && end.currentSlot == st.currentSlot
  {
  }

  lemma HighestMoves(st: State, b: Batch, end: State)
    requires CurrentIsHighest(st) && end.pushed == st.pushed + [b]
    requires end.currentSlot == if b.slot > st.currentSlot then b.slot else st.currentSlot
    ensures CurrentIsHighest(end)
  {
    assert b in end.pushed;
    if end.currentSlot > 0 && end.currentSlot == st.currentSlot {
      var p :| p in st.pushed && p.slot == st.currentSlot;
      assert p in end.pushed;
    }
  }

  /** One push keeps the window, and breaks the order exactly when it overtakes slot 0. */
  lemma StreamingPush(c: Config, st: State, b: Batch, now: real)
    requires c.mode == StreamingOrdered && StreamingInv(st) && b.seqNo == |st.pushed|
    requires Sound(PushBatch(c, st, b, now))
    ensures StreamingInv(PushBatch(c, st, b, now))
    ensures Increasing(PushBatch(c, st, b, now)) <==> Increasing(st) && !Overtakes(st, b)
  {
    var st1 := st.(pushed := st.pushed + [b]);
    var end := PushBatch(c, st, b, now);
    assert end == PushStreaming(st1, b, now);
    if b.slot < st.currentSlot {
      SameWindow(st1, st);
      SameParts(st1, st);
      DropKeepsWindow(st1, b);
      HighestMoves(st, b, end);
    } else {
      var ready := Arrived(st, b, now);
      ArrivedIsReady(st, b, now);
      ArrivedOvertakes(st, b, now);
      PlaceKeepsWindow(ready, b);
      PlaceIncreasing(ready, b);
      PlaceKeepsRest(ready, b);
      assert end == Place(ready, b);
      HighestMoves(st, b, end);
    }
  }

  // ----- Flushes -----

  lemma FlushParts(st: State, now: real)
    ensures var end := FlushAllSlots(StreamingOrdered, st, now);
            && end.emitted == st.emitted + Drain(st.slots) && end.slots == map[] && end.pending == {}
            && end.currentSlot == st.currentSlot && end.pushed == st.pushed && end.micro == st.micro
            && end.watermarks == FlushedWatermarks(st)
  {
  }

  // The kept watermark is past everything flushed from the current slot.
  lemma FlushedExpected(st: State, end: State)
    requires end.watermarks == FlushedWatermarks(st) && end.currentSlot == st.currentSlot
    ensures forall s :: s in end.watermarks ==> s == st.currentSlot
    ensures Expected(end, st.currentSlot) == PastAll(Held(st, st.currentSlot), Expected(st, st.currentSlot))
  {
  }

  lemma LastIsHighest(held: seq<Batch>, h: Batch)
    requires Ascending(KeyLess, held) && h in held && forall x :: x in held ==> x.slot == h.slot
    ensures h.txIndex <= held[|held| - 1].txIndex
  {
    var i :| 0 <= i < |held| && held[i] == h;
    assert held[|held| - 1] in held;
    if i < |held| - 1 {
      assert KeyLess(held[i], held[|held| - 1]);
    }
  }

  lemma FlushKeepsGate(st: State, now: real)
    requires Window(st)
    ensures Gate(FlushAllSlots(StreamingOrdered, st, now))
  {
    var end := FlushAllSlots(StreamingOrdered, st, now);
    var c := st.currentSlot;
    var held := Held(st, c);
    FlushParts(st, now);
    FlushedExpected(st, end);
    FlushedHeld(st);
    forall e | e in end.emitted
      ensures Passed(end, e)
    {
      if e in st.emitted {
        assert Passed(st, e);
      } else {
        DrainMembers(st.slots, e);
        if e.slot == c {
          SortMembers(BatchesAt(st.slots, c), e);
          LastIsHighest(held, e);
        }
      }
    }
    if held != [] {
      var last := held[|held| - 1];
      SortMembers(BatchesAt(st.slots, c), last);
      DrainMembers(st.slots, last);
      assert last in end.emitted && last.slot == c;
    }
    if Expected(st, c) > 0 {
      var e :| e in st.emitted && e.slot == c && e.txIndex + 1 == Expected(st, c);
      assert e in end.emitted;
    }
  }

  lemma FlushedHeld(st: State)
    requires Window(st)
    ensures var held := Held(st, st.currentSlot);
            Ascending(KeyLess, held) && forall h :: h in held ==> h.slot == st.currentSlot
  {
    var at := BatchesAt(st.slots, st.currentSlot);
    forall h | h in Sort(at)
      ensures h.slot == st.currentSlot
    {
      SortMembers(at, h);
    }
    if st.currentSlot in st.slots {
      PartsAreUnique(st);
      SlotIsUnique(st.slots, st.currentSlot);
      SortIsKeyStrict(at, st.currentSlot);
    }
  }

  lemma FlushKeepsWindow(st: State, now: real)
    requires Window(st)
    ensures Window(FlushAllSlots(StreamingOrdered, st, now))
  {
    FlushParts(st, now);
    FlushedExpected(st, FlushAllSlots(StreamingOrdered, st, now));
    FlushKeepsGate(st, now);
    FlushAllSlotsAccounts(StreamingOrdered, st, now);
  }

  lemma FlushShowsAll(st: State, now: real)
    ensures var end := FlushAllSlots(StreamingOrdered, st, now); end.emitted + Drain(end.slots) == st.emitted + Drain(st.slots)
  {
    FlushParts(st, now);
    assert Drain(map[]) == [];
  }

  /** A flush keeps the window and never breaks or mends the order. */
  lemma StreamingFlush(st: State, now: real)
    requires StreamingInv(st)
    ensures var end := FlushAllSlots(StreamingOrdered, st, now);
            StreamingInv(end) && (Increasing(end) <==> Increasing(st))
  {
    FlushParts(st, now);
    FlushKeepsWindow(st, now);
    FlushAllSlotsAccounts(StreamingOrdered, st, now);
    FlushShowsAll(st, now);
  }

  // ----- Whole runs -----

  ghost predicate OpOvertakes(st: State, op: Op) {
    && op.PushOp? && op.events != []
    && var place := PlaceOf(op.events, op.slot, op.txIndex);
       place.Some? && Overtakes(st, Batch(place.value.0, place.value.1, |st.pushed|, op.events))
  }

  lemma StreamingPushOp(c: Config, st: State, op: Op)
    requires c.mode == StreamingOrdered && StreamingInv(st) && op.PushOp?
    ensures StreamingInv(Step(c, st, op))
    ensures Increasing(Step(c, st, op)) <==> Increasing(st) && !OpOvertakes(st, op)
  {
    StepIsSound(c, st, op);
    if op.events != [] && PlaceOf(op.events, op.slot, op.txIndex).Some? {
      var (s, i) := PlaceOf(op.events, op.slot, op.txIndex).value;
      StreamingPush(c, st, Batch(s, i, |st.pushed|, op.events), op.now);
    }
  }

  lemma StreamingFlushOp(c: Config, st: State, op: Op)
    requires c.mode == StreamingOrdered && StreamingInv(st) && !op.PushOp?
    ensures StreamingInv(Step(c, st, op)) && (Increasing(Step(c, st, op)) <==> Increasing(st))
  {
    StreamingFlush(st, op.now);
  }

  /** One step of a run, in both directions. */
  lemma StreamingStep(c: Config, st: State, op: Op)
    requires c.mode == StreamingOrdered && StreamingInv(st)
    ensures StreamingInv(Step(c, st, op))
    ensures Increasing(Step(c, st, op)) <==> Increasing(st) && !OpOvertakes(st, op)
  {
    if op.PushOp? {
      StreamingPushOp(c, st, op);
    } else {
      StreamingFlushOp(c, st, op);
    }
  }

  lemma {:induction false} StreamingRun(c: Config, start: real, ops: seq<Op>)
    requires c.mode == StreamingOrdered
    ensures StreamingInv(Run(c, start, ops))
    decreases |ops|
  {
    if ops == [] {
      assert Drain(map[]) == [];
    } else {
      StreamingRun(c, start, ops[..|ops| - 1]);
      StreamingStep(c, Run(c, start, ops[..|ops| - 1]), ops[|ops| - 1]);
    }
  }

  ghost predicate OvertakesAt(c: Config, start: real, ops: seq<Op>, k: nat)
    requires k < |ops|
  {
    OpOvertakes(Run(c, start, ops[..k]), ops[k])
  }

  ghost predicate NeverOvertakes(c: Config, start: real, ops: seq<Op>) {
    forall k :: 0 <= k < |ops| ==> !OvertakesAt(c, start, ops, k)
  }

  /**
   Over every run whatever: what is emitted, followed by what is still buffered, is strictly
   increasing in (slot, index) if and only if no push overtakes a batch of slot 0.
   */
  lemma {:induction false} IncreasingExactly(c: Config, start: real, ops: seq<Op>)
    requires c.mode == StreamingOrdered
    ensures Increasing(Run(c, start, ops)) <==> NeverOvertakes(c, start, ops)
    decreases |ops|
  {
    if ops == [] {
      assert Drain(map[]) == [];
    } else {
      var n := |ops| - 1;
      var before := ops[..n];
      IncreasingExactly(c, start, before);
      StreamingRun(c, start, before);
      StreamingStep(c, Run(c, start, before), ops[n]);
      OvertakesLast(c, start, ops);
    }
  }

  lemma OvertakesBefore(c: Config, start: real, ops: seq<Op>, n: nat, k: nat)
    requires k < n <= |ops|
    ensures OvertakesAt(c, start, ops, k) <==> OvertakesAt(c, start, ops[..n], k)
  {
    assert ops[..k] == ops[..n][..k];
  }

  lemma OvertakesLast(c: Config, start: real, ops: seq<Op>)
    requires ops != []
    ensures var n := |ops| - 1;
            NeverOvertakes(c, start, ops) <==> NeverOvertakes(c, start, ops[..n]) && !OvertakesAt(c, start, ops, n)
  {
    var n := |ops| - 1;
    forall k | 0 <= k < n
      ensures OvertakesAt(c, start, ops, k) <==> OvertakesAt(c, start, ops[..n], k)
    {
      OvertakesBefore(c, start, ops, n, k);
    }
  }

  lemma {:induction false} EarlierPushes(c: Config, start: real, ops: seq<Op>, k: nat)
    requires k <= |ops|
    ensures Run(c, start, ops[..k]).pushed <= Run(c, start, ops).pushed
    decreases |ops|
  {
    if k == |ops| {
      assert ops[..k] == ops;
    } else {
      var before := ops[..|ops| - 1];
      assert before[..k] == ops[..k];
      EarlierPushes(c, start, before, k);
    }
  }

  lemma NothingInSlotZero(st: State)
    requires Sound(st) && forall b :: b in st.pushed ==> b.slot >= 1
    ensures BatchesAt(st.slots, 0) == []
  {
    if 0 in st.slots {
      var b := st.slots[0][0];
      DrainMembers(st.slots, b);
      HeldWasPushed(st, b);
    }
  }

  /** With every slot at least 1, emissions are strictly increasing over every run. */
  lemma SlotsFromOneIncrease(c: Config, start: real, ops: seq<Op>)
    requires c.mode == StreamingOrdered
    requires forall b :: b in Run(c, start, ops).pushed ==> b.slot >= 1
    ensures Increasing(Run(c, start, ops)) && Ascending(KeyLess, Run(c, start, ops).emitted)
  {
    forall k | 0 <= k < |ops|
      ensures !OvertakesAt(c, start, ops, k)
    {
      var st := Run(c, start, ops[..k]);
      StreamingRun(c, start, ops[..k]);
      EarlierPushes(c, start, ops, k);
      assert forall b :: b in st.pushed ==> b in Run(c, start, ops).pushed;
      NothingInSlotZero(st);
    }
    IncreasingExactly(c, start, ops);
    StreamingRun(c, start, ops);
    IncreasingParts(Run(c, start, ops));
  }

  // A full flush at the end emits what was buffered.
  lemma FlushedAtEnd(c: Config, start: real, ops: seq<Op>, now: real)
    requires c.mode == StreamingOrdered
    ensures Run(c, start, ops + [FlushAllOp(now)]).emitted == Run(c, start, ops).emitted + Drain(Run(c, start, ops).slots)
  {
    StreamingRun(c, start, ops);
    assert (ops + [FlushAllOp(now)])[..|ops|] == ops;
  }

  /**
   Over every run whatever, ended by a full flush: the emissions are strictly increasing if and only if
   no push overtook a batch of slot 0.
   */
  lemma EmissionsExactly(c: Config, start: real, ops: seq<Op>, now: real)
    requires c.mode == StreamingOrdered
    ensures Ascending(KeyLess, Run(c, start, ops + [FlushAllOp(now)]).emitted) <==> NeverOvertakes(c, start, ops)
  {
    FlushedAtEnd(c, start, ops, now);
    IncreasingExactly(c, start, ops);
  }

  // Transaction 1 of slot 0, then transaction 0 of slot 5.
  function Overtaking(e: Event, start: real): seq<Op> {
    [PushOp([e], 0, 1, start), PushOp([e], 5, 0, start)]
  }

  /**
   The order fails for slot 0: its transaction 1 is buffered, slot 5 begins without flushing it,
   transaction 0 of slot 5 is emitted first, and the full flush emits the other after it.
   */
  lemma SlotZeroIsOvertaken(c: Config, start: real, e: Event)
    requires c.mode == StreamingOrdered && e.position == None
    ensures !Ascending(KeyLess, Run(c, start, Overtaking(e, start) + [FlushAllOp(start)]).emitted)
  {
    var ops := Overtaking(e, start);
    assert ops[..1] == [ops[0]] && ops[..1][..0] == [];
    var st := Run(c, start, ops[..1]);
    assert ops[..1][..|ops[..1]| - 1] == [] && Run(c, start, []) == Start(start);
    assert st == Step(c, Start(start), ops[0]);
    assert BatchesAt(st.slots, 0) == [Batch(0, 1, 0, [e])];
    assert OvertakesAt(c, start, ops, 1);
    EmissionsExactly(c, start, ops, start);
  }

  // ----- What is dropped -----

  ghost predicate TooLateOrDuplicate(st: State, b: Batch) {
    || (exists p :: p in st.pushed && p.slot > b.slot)
    || (exists e :: e in st.emitted && e.slot == b.slot && e.txIndex >= b.txIndex)
    || (exists h :: h in Drain(st.slots) && h.slot == b.slot && h.txIndex == b.txIndex)
  }

  lemma DropsOnArrival(st: State, b: Batch)
    requires Gate(st) && Filed(st.slots) && b.slot == st.currentSlot
    ensures Place(st, b).dropped == st.dropped + [b] <==>
            || (exists e :: e in st.emitted && e.slot == b.slot && e.txIndex >= b.txIndex)
            || (exists h :: h in Drain(st.slots) && h.slot == b.slot && h.txIndex == b.txIndex)
    ensures Place(st, b).dropped == st.dropped + [b] || Place(st, b).dropped == st.dropped
  {
    forall h: Batch
      ensures h in Drain(st.slots) && h.slot == b.slot <==> h in BatchesAt(st.slots, b.slot)
    {
      DrainMembers(st.slots, h);
    }
    forall e | e in st.emitted
      ensures Passed(st, e)
    {
    }
    assert b.txIndex in st.pending <==> exists h :: h in BatchesAt(st.slots, b.slot) && h.txIndex == b.txIndex;
    assert |st.dropped + [b]| != |st.dropped|;
  }

  // In the current slot.
  lemma DropsInSlot(st: State, b: Batch, now: real)
    requires StreamingInv(st) && b.seqNo == |st.pushed| && b.slot == st.currentSlot
    ensures var end := Place(Arrived(st, b, now), b);
            && (end.dropped == st.dropped + [b] <==> TooLateOrDuplicate(st, b))
            && (end.dropped == st.dropped <==> !TooLateOrDuplicate(st, b))
  {
    var ready := Arrived(st, b, now);
    assert ready == st.(pushed := st.pushed + [b]);
    ArrivedIsReady(st, b, now);
    DropsOnArrival(ready, b);
    assert |st.dropped + [b]| != |st.dropped|;
  }

  lemma LateSlot(st: State, b: Batch)
    requires CurrentIsHighest(st) && b.slot < st.currentSlot
    ensures TooLateOrDuplicate(st, b)
  {
    var p :| p in st.pushed && p.slot == st.currentSlot;
    assert p.slot > b.slot;
  }

  /** A transaction is dropped exactly when it is too late or already there. */
  lemma StreamingDropsExactly(c: Config, start: real, ops: seq<Op>, b: Batch, now: real)
    requires c.mode == StreamingOrdered && b.seqNo == |Run(c, start, ops).pushed|
    ensures var st := Run(c, start, ops);
            var end := PushBatch(c, st, b, now);
            && (end.dropped == st.dropped + [b] <==> TooLateOrDuplicate(st, b))
            && (end.dropped == st.dropped <==> !TooLateOrDuplicate(st, b))
  {
    StreamingRun(c, start, ops);
    var st := Run(c, start, ops);
    assert |st.dropped + [b]| != |st.dropped|;
    if b.slot < st.currentSlot {
      LateSlot(st, b);
    } else if b.slot == st.currentSlot {
      DropsInSlot(st, b, now);
    } else {
      FirstInSlot(st, b, now);
    }
  }

  lemma NothingThatLate(st: State, b: Batch)
    requires StreamingInv(st) && b.slot > st.currentSlot
    ensures !TooLateOrDuplicate(st, b)
  {
    forall x | x in st.emitted || x in Drain(st.slots)
      ensures x.slot <= st.currentSlot
    {
      HeldWasPushed(st, x);
    }
  }

  lemma FirstInSlot(st: State, b: Batch, now: real)
    requires StreamingInv(st) && b.seqNo == |st.pushed| && b.slot > st.currentSlot
    ensures !TooLateOrDuplicate(st, b) && Place(Arrived(st, b, now), b).dropped == st.dropped
  {
    NothingThatLate(st, b);
    SameWindow(st.(pushed := st.pushed + [b]), st);
    EnterLater(st.(pushed := st.pushed + [b]), b.slot, now);
  }
}
