/** Ordered mode: emissions never go back, and what is rejected is exactly what came too late. */
module OrderedMode {
  import opened Prelude
  import opened OrderSpec
  import opened OrderLemmas
  import opened OrderProofs

  function Last(bs: seq<Batch>): Batch
    requires bs != []
  {
    bs[|bs| - 1]
  }

  // The watermark is the place of the last emission, and everything buffered lies beyond it.
  ghost predicate Ahead(st: State) {
    && Numbered(st.pushed) && Filed(st.slots) && Accounted(st) <= multiset(st.pushed)
    && Ascending(Before, st.emitted)
    && (st.orderedWatermark == if st.emitted == [] then None else Some((Last(st.emitted).slot, Last(st.emitted).txIndex)))
    && forall h :: h in Drain(st.slots) ==> Beyond(st.emitted, h)
  }

  ghost predicate Beyond(emitted: seq<Batch>, b: Batch) {
    emitted != [] ==> KeyLess(Last(emitted), b)
  }

  ghost predicate OrderedInv(st: State) {
    Sound(st) && Ahead(st) && CurrentIsHighest(st) && st.micro == [] && st.lateDrops == |st.dropped|
  }

  lemma BeyondIsAfterAll(emitted: seq<Batch>, e: Batch, h: Batch)
    requires Ascending(Before, emitted) && Beyond(emitted, h) && e in emitted
    ensures KeyLess(e, h)
  {
    var i :| 0 <= i < |emitted| && emitted[i] == e;
    if i < |emitted| - 1 {
      assert Before(emitted[i], emitted[|emitted| - 1]);
    }
  }

  lemma DrainIsAscending(st: State)
    requires Ahead(st)
    ensures Ascending(Before, Drain(st.slots)) && Ascending(Before, st.emitted + Drain(st.slots))
  {
    PartsAreUnique(st);
    DrainIsStrict(st.slots);
    forall e, h | e in st.emitted && h in Drain(st.slots)
      ensures Before(e, h)
    {
      BeyondIsAfterAll(st.emitted, e, h);
    }
    AscendingConcat(Before, st.emitted, Drain(st.slots));
  }

  // Emitting the front of what is buffered keeps emissions ascending, and the back beyond them.
  lemma FrontThenBack(st: State, slot: nat)
    requires Ahead(st)
    ensures Ascending(Before, st.emitted + Drain(Front(st.slots, slot)))
    ensures forall h :: h in Drain(Back(st.slots, slot)) ==> Beyond(st.emitted, h)
  {
    var front, back := Drain(Front(st.slots, slot)), Drain(Back(st.slots, slot));
    DrainIsAscending(st);
    DrainPrefix(st.slots, slot);
    Associate(st.emitted, front, back);
    AscendingConcat(Before, st.emitted + front, back);
    forall h | h in back
      ensures Beyond(st.emitted, h)
    {
      assert h in front + back;
    }
  }

  lemma FrontIsBelowBack(m: Slots, slot: nat, x: Batch, y: Batch)
    requires Filed(m) && x in Drain(Front(m, slot)) && y in Drain(Back(m, slot))
    ensures KeyLess(x, y)
  {
    DrainMembers(Front(m, slot), x);
    DrainMembers(Back(m, slot), y);
  }

  lemma FlushBeforeStaysAhead(st: State, slot: nat, now: real)
    requires Ahead(st)
    ensures Ahead(FlushBefore(Ordered, st, slot, now))
  {
    var end := FlushBefore(Ordered, st, slot, now);
    FlushBeforeAccounts(Ordered, st, slot, now);
    FrontThenBack(st, slot);
    forall h | h in Drain(end.slots)
      ensures Beyond(end.emitted, h)
    {
      var front := Drain(Front(st.slots, slot));
      if front != [] {
        FrontIsBelowBack(st.slots, slot, Last(front), h);
      }
    }
  }

  // Being ahead with nothing buffered.
  lemma AheadWhenEmpty(st: State)
    requires Numbered(st.pushed) && st.slots == map[] && Accounted(st) <= multiset(st.pushed)
    requires Ascending(Before, st.emitted)
    requires st.orderedWatermark == if st.emitted == [] then None else Some((Last(st.emitted).slot, Last(st.emitted).txIndex))
    ensures Ahead(st)
  {
    assert Drain(map[]) == [];
  }

  lemma FlushAllWatermark(st: State, now: real)
    requires st.orderedWatermark == if st.emitted == [] then None else Some((Last(st.emitted).slot, Last(st.emitted).txIndex))
    ensures var end := FlushAllSlots(Ordered, st, now);
            && end.slots == map[] && end.emitted == st.emitted + Drain(st.slots)
            && end.orderedWatermark == if end.emitted == [] then None else Some((Last(end.emitted).slot, Last(end.emitted).txIndex))
  {
  }

  lemma FlushAllStaysAhead(st: State, now: real)
    requires Ahead(st)
    ensures Ahead(FlushAllSlots(Ordered, st, now))
  {
    FlushAllSlotsAccounts(Ordered, st, now);
    DrainIsAscending(st);
    FlushAllWatermark(st, now);
    AheadWhenEmpty(FlushAllSlots(Ordered, st, now));
  }

  lemma BufferStaysAhead(st: State, b: Batch)
    requires Ahead(st) && Beyond(st.emitted, b)
    requires Accounted(st) + multiset{b} <= multiset(st.pushed)
    ensures Ahead(Buffer(st, b))
  {
    BufferAccounts(st, b);
    DrainBuffer(st.slots, b);
    var drained := Drain(Buffer(st, b).slots);
    forall h | h in drained
      ensures Beyond(st.emitted, h)
    {
      assert h in multiset(drained);
      assert h == b || h in multiset(Drain(st.slots));
    }
  }

  lemma AcceptedIsBeyond(st: State, b: Batch)
    requires Ahead(st) && !IsLate(st, b)
    ensures Beyond(st.emitted, b)
  {
  }

  lemma EmittedIsBelow(st: State, e: Batch, slot: nat)
    requires Sound(st) && CurrentIsHighest(st) && st.currentSlot < slot
    ensures e in st.emitted || e in Drain(st.slots) ==> e.slot < slot
  {
    HeldWasPushed(st, e);
  }

  // Being ahead depends on these parts only, and on no more having been placed than pushed.
  lemma SameAhead(a: State, b: State)
    requires Ahead(b) && Numbered(a.pushed) && b.pushed <= a.pushed
    requires a.emitted == b.emitted && a.slots == b.slots && a.micro == b.micro && a.dropped == b.dropped
    requires a.orderedWatermark == b.orderedWatermark
    ensures Ahead(a)
  {
    SameParts(a, b);
    assert a.pushed == b.pushed + a.pushed[|b.pushed|..];
  }

  // Whatever is emitted once the slots before `slot` are flushed is of an earlier slot.
  lemma FlushedIsBelow(st: State, slot: nat, e: Batch)
    requires Sound(st) && CurrentIsHighest(st) && st.currentSlot < slot
    requires e in st.emitted + Drain(Front(st.slots, slot))
    ensures e.slot < slot
  {
    DrainPrefix(st.slots, slot);
    EmittedIsBelow(st, e, slot);
  }

  // A later slot first flushes everything that is buffered.
  lemma LaterSlotStaysAhead(st: State, b: Batch, now: real)
    requires OrderedInv(st) && b.seqNo == |st.pushed| && b.slot > st.currentSlot
    ensures var flushed := FlushBefore(Ordered, st.(pushed := st.pushed + [b]), b.slot, now);
            Ahead(flushed) && Beyond(flushed.emitted, b)
  {
    var st1 := st.(pushed := st.pushed + [b]);
    SameAhead(st1, st);
    FlushBeforeStaysAhead(st1, b.slot, now);
    var emitted := st.emitted + Drain(Front(st.slots, b.slot));
    if emitted != [] {
      FlushedIsBelow(st, b.slot, Last(emitted));
    }
  }

  lemma OpenSlotStaysAhead(st: State, b: Batch, now: real)
    requires OrderedInv(st) && b.seqNo == |st.pushed|
    requires !IsLate(st.(pushed := st.pushed + [b]), b)
    ensures var ready := OpenSlot(st.(pushed := st.pushed + [b]), b.slot, now);
            Ahead(ready) && Beyond(ready.emitted, b)
  {
    var st1 := st.(pushed := st.pushed + [b]);
    if b.slot > st.currentSlot > 0 {
      LaterSlotStaysAhead(st, b, now);
      SameAhead(OpenSlot(st1, b.slot, now), FlushBefore(Ordered, st1, b.slot, now));
    } else {
      SameAhead(st1, st);
      AcceptedIsBeyond(st1, b);
      SameAhead(OpenSlot(st1, b.slot, now), st1);
    }
  }

  lemma AcceptedStaysAhead(st: State, b: Batch, now: real)
    requires OrderedInv(st) && b.seqNo == |st.pushed|
    requires !IsLate(st.(pushed := st.pushed + [b]), b)
    ensures Ahead(PushOrdered(st.(pushed := st.pushed + [b]), b, now))
  {
    var st1 := st.(pushed := st.pushed + [b]);
    SameParts(st1, st);
    OpenSlotStaysAhead(st, b, now);
    OpenSlotAccounts(st1, b.slot, now);
    BufferStaysAhead(OpenSlot(st1, b.slot, now), b);
  }

  lemma RejectedStaysAhead(st: State, b: Batch)
    requires OrderedInv(st) && b.seqNo == |st.pushed|
    ensures Ahead(Drop(st.(pushed := st.pushed + [b]), b).(lateDrops := st.lateDrops + 1))
  {
    var st1 := st.(pushed := st.pushed + [b]);
    SameAhead(st1, st);
    SameParts(st1, st);
    DropAccounts(st1, b);
  }

  lemma PushKeepsHighest(st: State, b: Batch, now: real)
    requires OrderedInv(st)
    ensures CurrentIsHighest(PushOrdered(st.(pushed := st.pushed + [b]), b, now))
  {
    var st1 := st.(pushed := st.pushed + [b]);
    var end := PushOrdered(st1, b, now);
    assert end.pushed == st.pushed + [b];
    assert IsLate(st1, b) ==> b.slot <= st.currentSlot by {
      if IsLate(st1, b) && b.slot >= st.currentSlot {
        HeldWasPushed(st, Last(st.emitted));
      }
    }
    assert end.currentSlot == if IsLate(st1, b) then st.currentSlot else b.slot;
    assert b in end.pushed;
    if st.currentSlot > 0 {
      var p :| p in st.pushed && p.slot == st.currentSlot;
      assert p in end.pushed;
    }
  }

  lemma OrderedPush(c: Config, st: State, b: Batch, now: real)
    requires c.mode == Ordered && OrderedInv(st) && b.seqNo == |st.pushed|
    requires Sound(PushBatch(c, st, b, now))
    ensures OrderedInv(PushBatch(c, st, b, now))
  {
    var st1 := st.(pushed := st.pushed + [b]);
    PushKeepsHighest(st, b, now);
    if IsLate(st1, b) {
      RejectedStaysAhead(st, b);
    } else {
      AcceptedStaysAhead(st, b, now);
    }
  }

  lemma OrderedFlush(st: State, now: real)
    requires OrderedInv(st)
    ensures OrderedInv(FlushAllSlots(Ordered, st, now))
  {
    FlushAllStaysAhead(st, now);
    FlushAllSlotsAccounts(Ordered, st, now);
  }

  /** One step keeps everything. */
  lemma OrderedStep(c: Config, st: State, op: Op)
    requires c.mode == Ordered && OrderedInv(st)
    ensures OrderedInv(Step(c, st, op))
  {
    if op.PushOp? {
      StepIsSound(c, st, op);
      if op.events != [] && PlaceOf(op.events, op.slot, op.txIndex).Some? {
        var (s, i) := PlaceOf(op.events, op.slot, op.txIndex).value;
        OrderedPush(c, st, Batch(s, i, |st.pushed|, op.events), op.now);
      }
    } else {
      OrderedFlush(st, op.now);
    }
  }

  lemma {:induction false} OrderedRun(c: Config, start: real, ops: seq<Op>)
    requires c.mode == Ordered
    ensures OrderedInv(Run(c, start, ops))
    decreases |ops|
  {
    if ops == [] {
      assert Drain(map[]) == [];
    } else {
      OrderedRun(c, start, ops[..|ops| - 1]);
      OrderedStep(c, Run(c, start, ops[..|ops| - 1]), ops[|ops| - 1]);
    }
  }

  /**
   Over every run, what has been emitted, followed by what is still buffered, is ascending in
   (slot, index) with ties in arrival order; and the late counter is the number rejected.
   */
  lemma OrderedEmissions(c: Config, start: real, ops: seq<Op>)
    requires c.mode == Ordered
    ensures var st := Run(c, start, ops);
            Ascending(Before, st.emitted + Drain(st.slots)) && st.lateDrops == |st.dropped|
  {
    OrderedRun(c, start, ops);
    DrainIsAscending(Run(c, start, ops));
  }

  /**
   A transaction is rejected exactly when a later slot has already been pushed, or one has been
   emitted at or after its own place.
   */
  lemma OrderedRejectsLate(c: Config, start: real, ops: seq<Op>, b: Batch)
    requires c.mode == Ordered
    ensures var st := Run(c, start, ops);
            IsLate(st, b) <==> || (exists p :: p in st.pushed && p.slot > b.slot)
                               || (exists e :: e in st.emitted && !KeyLess(e, b))
  {
    OrderedRun(c, start, ops);
    var st := Run(c, start, ops);
    if e :| e in st.emitted && !KeyLess(e, b) {
      if Beyond(st.emitted, b) {
        BeyondIsAfterAll(st.emitted, e, b);
      }
    }
    if IsLate(st, b) && b.slot >= st.currentSlot {
      assert Last(st.emitted) in st.emitted;
    }
  }
}
