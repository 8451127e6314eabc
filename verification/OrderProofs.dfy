/** What every run of the order dispatcher keeps, mode by mode. */
module OrderProofs {
  import opened Prelude
  import opened OrderSpec
  import opened OrderLemmas

  // ----- Conservation, in every mode -----

  ghost function Accounted(st: State): multiset<Batch> {
    multiset(st.emitted) + multiset(Drain(st.slots)) + multiset(st.micro) + multiset(st.dropped)
  }

  // Batches are numbered in arrival order.
  ghost predicate Numbered(bs: seq<Batch>) {
    forall i :: 0 <= i < |bs| ==> bs[i].seqNo == i
  }

  // Each pushed batch is in exactly one place: emitted, buffered or dropped.
  ghost predicate Sound(st: State) {
    Numbered(st.pushed) && Filed(st.slots) && Accounted(st) == multiset(st.pushed)
  }

  lemma NumberedIsUnique(bs: seq<Batch>)
    requires Numbered(bs)
    ensures Unique(multiset(bs))
  {
    var ms := multiset(bs);
    forall a, b | a in ms && b in ms && a.seqNo == b.seqNo
      ensures a == b
    {
      assert a in bs && b in bs;
    }
    forall b | b in ms
      ensures ms[b] == 1
    {
      assert b in bs;
      var i := b.seqNo;
      assert bs == bs[..i] + [b] + bs[i + 1..];
      assert b !in bs[..i] && b !in bs[i + 1..];
    }
  }

  lemma PartsAreUnique(st: State)
    requires Numbered(st.pushed) && Accounted(st) <= multiset(st.pushed)
    ensures Unique(multiset(st.emitted)) && Unique(multiset(Drain(st.slots)))
    ensures Unique(multiset(st.micro)) && Unique(multiset(st.dropped))
  {
    NumberedIsUnique(st.pushed);
    SubsetIsUnique(multiset(st.emitted), multiset(st.pushed));
    SubsetIsUnique(multiset(Drain(st.slots)), multiset(st.pushed));
    SubsetIsUnique(multiset(st.micro), multiset(st.pushed));
    SubsetIsUnique(multiset(st.dropped), multiset(st.pushed));
  }

  lemma SubsetIsUnique(a: multiset<Batch>, b: multiset<Batch>)
    requires a <= b && Unique(b)
    ensures Unique(a)
  {
    forall x | x in a
      ensures a[x] == 1 && x in b
    {
      assert a[x] <= b[x];
    }
  }

  lemma FlushBeforeAccounts(mode: Mode, st: State, slot: nat, now: real)
    ensures Accounted(FlushBefore(mode, st, slot, now)) == Accounted(st)
    ensures Filed(st.slots) ==> Filed(FlushBefore(mode, st, slot, now).slots)
  {
    DrainPrefix(st.slots, slot);
  }

  lemma FlushAllSlotsAccounts(mode: Mode, st: State, now: real)
    ensures Accounted(FlushAllSlots(mode, st, now)) == Accounted(st)
  {
    assert Drain(map[]) == [];
  }

  lemma FlushMicroAccounts(mode: Mode, st: State, now: real)
    ensures Accounted(FlushMicro(mode, st, now)) == Accounted(st)
  {
  }

  lemma EmitAccounts(st: State, b: Batch)
    ensures Accounted(Emit(Unordered, st, [b])) == Accounted(st) + multiset{b}
  {
  }

  lemma DropAccounts(st: State, b: Batch)
    ensures Accounted(Drop(st, b)) == Accounted(st) + multiset{b}
  {
  }

  lemma BufferAccounts(st: State, b: Batch)
    ensures Accounted(Buffer(st, b)) == Accounted(st) + multiset{b}
    ensures Filed(st.slots) ==> Filed(Buffer(st, b).slots)
  {
    DrainBuffer(st.slots, b);
  }

  lemma ReleaseKeepsFiled(st: State, b: Batch)
    requires Filed(st.slots)
    ensures Filed(Release(st, b).slots)
  {
    var at := BatchesAt(st.slots, b.slot);
    var held := Held(st, b.slot);
    var n := Following(st, b);
    forall x | x in held[n..]
      ensures x.slot == b.slot
    {
      SortMembers(at, x);
    }
    SettleKeepsFiled(st, b, held, n);
  }

  lemma SettleKeepsFiled(st: State, b: Batch, held: seq<Batch>, n: nat)
    requires Filed(st.slots) && n <= |held| && forall x :: x in held[n..] ==> x.slot == b.slot
    ensures Filed(Settle(st, b, held, n).slots)
  {
  }

  // The buffer of the slot loses exactly what is released.
  lemma SettleDrains(st: State, b: Batch, held: seq<Batch>, n: nat)
    requires n <= |held| && multiset(held) == multiset(BatchesAt(st.slots, b.slot))
    ensures multiset(Drain(st.slots)) == multiset(held[..n]) + multiset(Drain(Settle(st, b, held, n).slots))
  {
    var slots' := Settle(st, b, held, n).slots;
    var others := st.slots - {b.slot};
    assert slots' - {b.slot} == others;
    DrainAt(st.slots, b.slot);
    DrainAt(slots', b.slot);
    assert BatchesAt(slots', b.slot) == held[n..];
    SplitMultiset(held, n);
    Associate2(multiset(held[..n]), multiset(held[n..]), multiset(Drain(others)));
  }

  lemma SplitMultiset(bs: seq<Batch>, n: nat)
    requires n <= |bs|
    ensures multiset(bs) == multiset(bs[..n]) + multiset(bs[n..])
  {
    assert bs == bs[..n] + bs[n..];
  }

  lemma RegroupCounts(e: multiset<Batch>, b: multiset<Batch>, h: multiset<Batch>, d: multiset<Batch>, rest: multiset<Batch>)
    ensures e + (b + h) + d + rest == e + (h + d) + rest + b
  {
  }

  lemma SettleAccounts(st: State, b: Batch, held: seq<Batch>, n: nat)
    requires n <= |held| && multiset(held) == multiset(BatchesAt(st.slots, b.slot))
    ensures Accounted(Settle(st, b, held, n)) == Accounted(st) + multiset{b}
  {
    SettleDrains(st, b, held, n);
    var end := Settle(st, b, held, n);
    var e, h, d := multiset(st.emitted), multiset(held[..n]), multiset(Drain(end.slots));
    var micro, dropped := multiset(st.micro), multiset(st.dropped);
    assert multiset(end.emitted) == e + (multiset{b} + h);
    RegroupCounts(e, multiset{b}, h, d, micro + dropped);
    Associate2(e + (multiset{b} + h) + d, micro, dropped);
    Associate2(e + (h + d), micro, dropped);
  }

  lemma ReleaseAccounts(st: State, b: Batch)
    ensures Accounted(Release(st, b)) == Accounted(st) + multiset{b}
  {
    SettleAccounts(st, b, Held(st, b.slot), Following(st, b));
  }

  lemma Associate2(a: multiset<Batch>, b: multiset<Batch>, c: multiset<Batch>)
    ensures a + b + c == a + (b + c)
  {
  }

  lemma EnterSlotAccounts(st: State, slot: nat, now: real)
    ensures Accounted(EnterSlot(st, slot, now)) == Accounted(st)
    ensures Filed(st.slots) ==> Filed(EnterSlot(st, slot, now).slots)
  {
    if slot > st.currentSlot {
      var flushed := FlushBefore(StreamingOrdered, st, slot, now);
      FlushBeforeAccounts(StreamingOrdered, st, slot, now);
      SameParts(EnterSlot(st, slot, now), if st.currentSlot > 0 then flushed else st);
    }
  }

  lemma SameParts(a: State, b: State)
    requires a.emitted == b.emitted && a.slots == b.slots && a.micro == b.micro && a.dropped == b.dropped
    ensures Accounted(a) == Accounted(b)
  {
  }

  lemma PushOrderedAccounts(st: State, b: Batch, now: real)
    requires Filed(st.slots)
    ensures Accounted(PushOrdered(st, b, now)) == Accounted(st) + multiset{b}
    ensures Filed(PushOrdered(st, b, now).slots)
  {
    if IsLate(st, b) {
      DropAccounts(st, b);
    } else {
      OpenSlotAccounts(st, b.slot, now);
      BufferAccounts(OpenSlot(st, b.slot, now), b);
    }
  }

  lemma OpenSlotAccounts(st: State, slot: nat, now: real)
    ensures Accounted(OpenSlot(st, slot, now)) == Accounted(st)
    ensures Filed(st.slots) ==> Filed(OpenSlot(st, slot, now).slots)
  {
    FlushBeforeAccounts(Ordered, st, slot, now);
    SameParts(OpenSlot(st, slot, now), if slot > st.currentSlot > 0 then FlushBefore(Ordered, st, slot, now) else st);
  }

  lemma PushStreamingAccounts(st: State, b: Batch, now: real)
    requires Filed(st.slots)
    ensures Accounted(PushStreaming(st, b, now)) == Accounted(st) + multiset{b}
    ensures Filed(PushStreaming(st, b, now).slots)
  {
    if b.slot < st.currentSlot {
      DropAccounts(st, b);
    } else {
      EnterSlotAccounts(st, b.slot, now);
      var st1 := EnterSlot(st, b.slot, now);
      if b.txIndex == Expected(st1, b.slot) {
        ReleaseAccounts(st1, b);
        ReleaseKeepsFiled(st1, b);
      } else if b.txIndex > Expected(st1, b.slot) && b.txIndex !in st1.pending {
        BufferAccounts(st1, b);
      } else {
        DropAccounts(st1, b);
      }
    }
  }

  lemma PushMicroAccounts(c: Config, st: State, b: Batch, now: real)
    ensures Accounted(PushMicro(c, st, b, now)) == Accounted(st) + multiset{b}
  {
    var st1 := st.(microStartUs := if st.micro == [] then now * 1000.0 else st.microStartUs, micro := st.micro + [b]);
    assert Accounted(st1) == Accounted(st) + multiset{b};
    FlushMicroAccounts(c.mode, st1, now);
  }

  lemma PushBatchAccounts(c: Config, st: State, b: Batch, now: real)
    requires Filed(st.slots)
    ensures Accounted(PushBatch(c, st, b, now)) == Accounted(st) + multiset{b}
    ensures Filed(PushBatch(c, st, b, now).slots)
  {
    var st1 := st.(pushed := st.pushed + [b]);
    SameParts(st1, st);
    match c.mode {
      case Unordered => EmitAccounts(st1, b);
      case Ordered => PushOrderedAccounts(st1, b, now);
      case StreamingOrdered => PushStreamingAccounts(st1, b, now);
      case MicroBatch => PushMicroAccounts(c, st1, b, now);
    }
  }

  lemma FlushDueIsSound(c: Config, st: State, now: real)
    requires Sound(st)
    ensures Sound(FlushDue(c, st, now))
  {
    FlushAllSlotsAccounts(c.mode, st, now);
    FlushMicroAccounts(c.mode, st, now);
    assert Filed(FlushAllSlots(c.mode, st, now).slots) && Filed(FlushMicro(c.mode, st, now).slots);
  }

  lemma FlushAllIsSound(c: Config, st: State, now: real)
    requires Sound(st)
    ensures Sound(FlushAll(c, st, now))
  {
    FlushAllSlotsAccounts(c.mode, st, now);
    FlushMicroAccounts(c.mode, FlushAllSlots(c.mode, st, now), now);
  }

  lemma PushIsSound(c: Config, st: State, b: Batch, now: real)
    requires Sound(st) && b.seqNo == |st.pushed|
    ensures Sound(PushBatch(c, st, b, now))
  {
    PushBatchAccounts(c, st, b, now);
  }

  /** Conservation, one step: nothing pushed is lost, duplicated or invented. */
  lemma StepIsSound(c: Config, st: State, op: Op)
    requires Sound(st)
    ensures Sound(Step(c, st, op))
  {
    match op
    case PushOp(events, slot, txIndex, now) =>
      if events != [] && PlaceOf(events, slot, txIndex).Some? {
        var (s, i) := PlaceOf(events, slot, txIndex).value;
        PushIsSound(c, st, Batch(s, i, |st.pushed|, events), now);
      }
    case FlushDueOp(now) => FlushDueIsSound(c, st, now);
    case FlushAllOp(now) => FlushAllIsSound(c, st, now);
  }

  /** Conservation, over every run and in every mode. */
  lemma {:induction false} RunIsSound(c: Config, start: real, ops: seq<Op>)
    ensures Sound(Run(c, start, ops))
    decreases |ops|
  {
    if ops == [] {
      assert Drain(map[]) == [];
    } else {
      RunIsSound(c, start, ops[..|ops| - 1]);
      StepIsSound(c, Run(c, start, ops[..|ops| - 1]), ops[|ops| - 1]);
    }
  }

  /** A full flush leaves nothing buffered. */
  lemma FlushAllEmpties(c: Config, st: State, now: real)
    requires Sound(st)
    ensures var end := FlushAll(c, st, now);
            && end.slots == map[] && end.micro == [] && end.pending == {}
            && multiset(end.emitted) + multiset(end.dropped) == multiset(st.pushed)
  {
    StepIsSound(c, st, FlushAllOp(now));
    AllIsOut(FlushAll(c, st, now));
  }

  lemma AllIsOut(st: State)
    requires Sound(st) && st.slots == map[] && st.micro == []
    ensures multiset(st.emitted) + multiset(st.dropped) == multiset(st.pushed)
  {
    assert Drain(map[]) == [];
  }

  // ----- The modes without a reordering window -----

  /** Unordered mode passes everything on as it comes. */
  lemma {:induction false} UnorderedRun(c: Config, start: real, ops: seq<Op>)
    requires c.mode == Unordered
    ensures var st := Run(c, start, ops); st.emitted == st.pushed && st.slots == map[] && st.micro == [] && st.dropped == []
    decreases |ops|
  {
    if ops != [] {
      UnorderedRun(c, start, ops[..|ops| - 1]);
      assert Drain(map[]) == [];
    }
  }

  lemma MicroBatchStep(c: Config, st: State, op: Op)
    requires c.mode == MicroBatch && st.slots == map[] && st.dropped == []
    ensures Step(c, st, op).slots == map[] && Step(c, st, op).dropped == []
  {
  }

  /** MicroBatch mode drops nothing: all that was pushed is emitted or in the window. */
  lemma {:induction false} MicroBatchRun(c: Config, start: real, ops: seq<Op>)
    requires c.mode == MicroBatch
    ensures Run(c, start, ops).slots == map[] && Run(c, start, ops).dropped == []
    decreases |ops|
  {
    if ops != [] {
      MicroBatchRun(c, start, ops[..|ops| - 1]);
      MicroBatchStep(c, Run(c, start, ops[..|ops| - 1]), ops[|ops| - 1]);
    }
  }

  lemma MicroBatchConserves(c: Config, start: real, ops: seq<Op>)
    requires c.mode == MicroBatch
    ensures var st := Run(c, start, ops); multiset(st.emitted) + multiset(st.micro) == multiset(st.pushed)
  {
    RunIsSound(c, start, ops);
    MicroBatchRun(c, start, ops);
    DrainNothing();
  }

  lemma DrainNothing()
    ensures Drain(map[]) == []
  {
  }

  // ----- The highest slot seen -----

  ghost predicate CurrentIsHighest(st: State) {
    && (forall b :: b in st.pushed ==> b.slot <= st.currentSlot)
    && (st.currentSlot == 0 || exists b :: b in st.pushed && b.slot == st.currentSlot)
  }

  // Whatever has been emitted or is buffered was pushed.
  lemma HeldWasPushed(st: State, b: Batch)
    requires Sound(st)
    ensures b in st.emitted || b in Drain(st.slots) || b in st.micro || b in st.dropped ==> b in st.pushed
  {
    assert b in st.pushed <==> b in multiset(st.pushed);
  }
}
