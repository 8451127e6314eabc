/**
 The dispatcher as the program runs it: an object whose maps, sets and counters every method
 updates in place. Each method moves the object exactly as the corresponding transition says.
 The `emit` callback delivers to `sink`, one list of events for each batch; clock readings are
 parameters.
 */
module OrderDispatcher {
  import opened Prelude
  import opened OrderSpec
  import opened OrderLemmas

  lemma EmitTwice(mode: Mode, st: State, a: seq<Batch>, b: seq<Batch>)
    ensures Emit(mode, Emit(mode, st, a), b) == Emit(mode, st, a + b)
  {
    assert st.emitted + a + b == st.emitted + (a + b);
  }

  // ----- One iteration of each flush loop -----

  function FlushOneBefore(mode: Mode, st: State, s: nat): State
    requires s in st.slots
  {
    Emit(mode, st, Sort(st.slots[s])).(slots := st.slots - {s}, watermarks := st.watermarks - {s})
  }

  lemma FrontStep(m: Slots, s: nat, slot: nat)
    requires s in m && s < slot && forall x :: x in m ==> s <= x
    ensures Drain(Front(m, slot)) == Sort(m[s]) + Drain(Front(m - {s}, slot))
    ensures Back(m - {s}, slot) == Back(m, slot)
  {
    WithoutFirst(m, slot, s);
    DrainStep(Front(m, slot), s);
  }

  lemma WatermarksStep(m: Slots, watermarks: map<nat, nat>, s: nat, slot: nat)
    requires s in m && s < slot
    ensures watermarks - {s} - SlotsBefore(m - {s}, slot) == watermarks - SlotsBefore(m, slot)
  {
    RemoveTwice(watermarks, {s}, SlotsBefore(m - {s}, slot));
    assert {s} + SlotsBefore(m - {s}, slot) == SlotsBefore(m, slot);
  }

  lemma FlushBeforeStep(mode: Mode, st: State, s: nat, slot: nat, now: real)
    requires s in st.slots && s < slot && forall x :: x in st.slots ==> s <= x
    ensures FlushBefore(mode, FlushOneBefore(mode, st, s), slot, now) == FlushBefore(mode, st, slot, now)
  {
    FrontStep(st.slots, s, slot);
    WatermarksStep(st.slots, st.watermarks, s, slot);
    EmitTwice(mode, st, Sort(st.slots[s]), Drain(Front(st.slots - {s}, slot)));
  }

  lemma FlushBeforeDone(mode: Mode, st: State, slot: nat, now: real)
    requires forall x :: x in st.slots ==> x >= slot
    ensures FlushBefore(mode, st, slot, now) == st.(lastFlushMs := now)
  {
    assert SlotsBefore(st.slots, slot) == {} && SlotsFrom(st.slots, slot) == st.slots.Keys;
    DrainNone(st.slots);
    assert st.slots - {} == st.slots && st.watermarks - {} == st.watermarks;
    assert st.emitted + [] == st.emitted;
  }

  function FlushOne(mode: Mode, st: State, s: nat): State
    requires s in st.slots
  {
    var batches := Sort(st.slots[s]);
    Emit(mode, st, batches).(
    slots := st.slots - {s},
    watermarks := if mode == StreamingOrdered && batches != [] then st.watermarks[s := PastAll(batches, Expected(st, s))]
                  else st.watermarks - {s})
  }

  lemma FlushCurrentWatermarks(st: State, s: nat)
    requires s in st.slots && st.slots[s] != [] && s == st.currentSlot
    ensures FlushedWatermarks(FlushOne(StreamingOrdered, st, s)) == FlushedWatermarks(st)
  {
    var one := FlushOne(StreamingOrdered, st, s);
    assert BatchesAt(one.slots, s) == [] && Sort([]) == [];
    assert Expected(one, s) == PastAll(Sort(st.slots[s]), Expected(st, s));
  }

  lemma FlushOtherWatermarks(st: State, s: nat)
    requires s in st.slots && st.slots[s] != [] && s != st.currentSlot
    ensures FlushedWatermarks(FlushOne(StreamingOrdered, st, s)) == FlushedWatermarks(st)
  {
    var one := FlushOne(StreamingOrdered, st, s);
    var c := st.currentSlot;
    assert BatchesAt(one.slots, c) == BatchesAt(st.slots, c) && Expected(one, c) == Expected(st, c);
  }

  lemma FlushOneWatermarks(mode: Mode, st: State, s: nat)
    requires s in st.slots && st.slots[s] != []
    ensures mode == StreamingOrdered ==> FlushedWatermarks(FlushOne(mode, st, s)) == FlushedWatermarks(st)
  {
    if mode == StreamingOrdered {
      if s == st.currentSlot {
        FlushCurrentWatermarks(st, s);
      } else {
        FlushOtherWatermarks(st, s);
      }
    }
  }

  lemma FlushAllStep(mode: Mode, st: State, s: nat, now: real)
    requires s in st.slots && st.slots[s] != [] && forall x :: x in st.slots ==> s <= x
    ensures FlushAllSlots(mode, FlushOne(mode, st, s), now) == FlushAllSlots(mode, st, now)
  {
    var first, rest := Sort(st.slots[s]), Drain(st.slots - {s});
    DrainStep(st.slots, s);
    FlushOneWatermarks(mode, st, s);
    EmitTwice(mode, st, first, rest);
    FlushAllStepIs(mode, st, s, first, rest, now);
  }

  lemma FlushAllStepIs(mode: Mode, st: State, s: nat, first: seq<Batch>, rest: seq<Batch>, now: real)
    requires s in st.slots && first == Sort(st.slots[s]) && rest == Drain(st.slots - {s}) && Drain(st.slots) == first + rest
    requires Emit(mode, Emit(mode, st, first), rest) == Emit(mode, st, first + rest)
    requires mode == StreamingOrdered ==> FlushedWatermarks(FlushOne(mode, st, s)) == FlushedWatermarks(st)
    ensures FlushAllSlots(mode, FlushOne(mode, st, s), now) == FlushAllSlots(mode, st, now)
  {
  }

  lemma FlushAllDone(mode: Mode, st: State, now: real)
    requires st.slots == map[]
    ensures FlushAllSlots(mode, st, now) ==
            st.(pending := {}, watermarks := if mode == StreamingOrdered then FlushedWatermarks(st) else map[], lastFlushMs := now)
  {
    assert Drain(map[]) == [] && st.emitted + [] == st.emitted;
  }

  class Dispatcher {
    const config: Config
    var slots: Slots
    var streamingWatermarks: map<nat, nat>
    var streamingPending: set<nat>
    var microBatch: seq<Batch>
    var microBatchStartUs: real
    var lastFlushMs: real
    var currentSlot: nat
    var seqNo: nat
    var orderedWatermark: Option<(nat, nat)>
    var orderedLateDrops: nat
    var sink: seq<seq<Event>>
    ghost var pushed: seq<Batch>
    ghost var emitted: seq<Batch>
    ghost var dropped: seq<Batch>

    ghost function State(): State
      reads this
    {
      OrderSpec.State(slots, streamingWatermarks, streamingPending, microBatch, microBatchStartUs, lastFlushMs,
                      currentSlot, orderedWatermark, orderedLateDrops, pushed, emitted, dropped)
    }

    ghost predicate Valid()
      reads this
    {
      && seqNo == |pushed|
      && (forall s :: s in slots ==> slots[s] != [])
      && |sink| == |emitted| && forall i :: 0 <= i < |sink| ==> sink[i] == emitted[i].events
    }

    // A missing or zero timeout counts as 100.
    constructor (mode: Mode, orderTimeoutMs: int, microBatchUs: int, now: real)
      ensures Valid() && State() == Start(now)
      ensures config.mode == mode && config.timeoutMs >= 1.0 && config.microBatchUs >= 1.0
      ensures orderTimeoutMs >= 1 ==> config.timeoutMs == orderTimeoutMs as real
      ensures microBatchUs >= 1 ==> config.microBatchUs == microBatchUs as real
      ensures orderTimeoutMs == 0 ==> config.timeoutMs == 100.0
      ensures microBatchUs == 0 ==> config.microBatchUs == 100.0
    {
      var timeout := if orderTimeoutMs == 0 then 100 else orderTimeoutMs;
      var micro := if microBatchUs == 0 then 100 else microBatchUs;
      config := Config(mode, (if timeout < 1 then 1 else timeout) as real, (if micro < 1 then 1 else micro) as real);
      slots, streamingWatermarks, streamingPending := map[], map[], {};
      microBatch, microBatchStartUs, lastFlushMs := [], 0.0, now;
      currentSlot, seqNo, orderedWatermark, orderedLateDrops := 0, 0, None, 0;
      sink, pushed, emitted, dropped := [], [], [], [];
    }

    method EmitBatch(b: Batch)
      requires Valid()
      modifies this`orderedWatermark, this`sink, this`emitted
      ensures Valid() && State() == Emit(config.mode, old(State()), [b])
    {
      if config.mode == Ordered {
        orderedWatermark := Some((b.slot, b.txIndex));
      }
      var delivered: seq<Event> := [];
      for i := 0 to |b.events|
        invariant delivered == b.events[..i]
      {
        delivered := delivered + [b.events[i]];
      }
      sink := sink + [delivered];
      emitted := emitted + [b];
    }

    method EmitBatches(bs: seq<Batch>)
      requires Valid()
      modifies this`orderedWatermark, this`sink, this`emitted
      ensures Valid() && State() == Emit(config.mode, old(State()), bs)
    {
      assert old(emitted) + [] == old(emitted);
      for i := 0 to |bs|
        invariant Valid() && State() == Emit(config.mode, old(State()), bs[..i])
      {
        EmitTwice(config.mode, old(State()), bs[..i], [bs[i]]);
        assert bs[..i] + [bs[i]] == bs[..i + 1];
        EmitBatch(bs[i]);
      }
      assert bs[..|bs|] == bs;
    }

    method PushSlotBatch(b: Batch)
      requires Valid()
      modifies this`slots
      ensures Valid() && State() == Buffer(old(State()), b)
    {
      if b.slot in slots {
        slots := slots[b.slot := slots[b.slot] + [b]];
      } else {
        assert [] + [b] == [b];
        slots := slots[b.slot := [b]];
      }
    }

    method ForgetSlot(s: nat)
      requires Valid() && s in slots
      modifies this
      ensures Valid() && State() == FlushOneBefore(config.mode, old(State()), s)
    {
      var batches := Sort(slots[s]);
      EmitBatches(batches);
      slots := slots - {s};
      streamingWatermarks := streamingWatermarks - {s};
    }

    method FlushBeforeSlot(slot: nat, now: real)
      requires Valid()
      modifies this
      ensures Valid() && State() == FlushBefore(config.mode, old(State()), slot, now)
    {
      var keys := slots.Keys;
      while keys != {}
        invariant Valid() && keys <= slots.Keys && forall x :: x in slots && x !in keys ==> x >= slot
        invariant FlushBefore(config.mode, State(), slot, now) == FlushBefore(config.mode, old(State()), slot, now)
        decreases |keys|
      {
        var s := MinKey(keys);
        keys := keys - {s};
        if s >= slot {
          continue;
        }
        FlushBeforeStep(config.mode, State(), s, slot, now);
        ForgetSlot(s);
      }
      FlushBeforeDone(config.mode, State(), slot, now);
      lastFlushMs := now;
    }

    method FlushSlot(s: nat)
      requires Valid() && s in slots
      modifies this
      ensures Valid() && State() == FlushOne(config.mode, old(State()), s)
    {
      var batches := Sort(slots[s]);
      EmitBatches(batches);
      slots := slots - {s};
      if config.mode == StreamingOrdered && |batches| > 0 {
        var next := batches[|batches| - 1].txIndex + 1;
        var known := if s in streamingWatermarks then streamingWatermarks[s] else 0;
        streamingWatermarks := streamingWatermarks[s := if next > known then next else known];
      } else {
        streamingWatermarks := streamingWatermarks - {s};
      }
    }

    method DrainSlots(ghost now: real)
      requires Valid()
      modifies this
      ensures Valid() && slots == map[]
      ensures FlushAllSlots(config.mode, State(), now) == FlushAllSlots(config.mode, old(State()), now)
    {
      var keys := slots.Keys;
      while keys != {}
        invariant Valid() && keys == slots.Keys
        invariant FlushAllSlots(config.mode, State(), now) == FlushAllSlots(config.mode, old(State()), now)
        decreases |keys|
      {
        var s := MinKey(keys);
        keys := keys - {s};
        FlushAllStep(config.mode, State(), s, now);
        FlushSlot(s);
      }
    }

    method FlushEverySlot(now: real)
      requires Valid()
      modifies this
      ensures Valid() && State() == FlushAllSlots(config.mode, old(State()), now)
    {
      DrainSlots(now);
      FlushAllDone(config.mode, State(), now);
      streamingPending := {};
      DropOtherWatermarks();
      lastFlushMs := now;
    }

    method DropOtherWatermarks()
      requires Valid() && slots == map[]
      modifies this`streamingWatermarks
      ensures streamingWatermarks == if config.mode == StreamingOrdered then FlushedWatermarks(old(State())) else map[]
      ensures Valid()
    {
      var keys := streamingWatermarks.Keys;
      ghost var kept := old(streamingWatermarks);
      while keys != {}
        invariant keys <= streamingWatermarks.Keys
        invariant forall s :: s in streamingWatermarks ==> s in kept && streamingWatermarks[s] == kept[s]
        invariant forall s :: s in streamingWatermarks && s !in keys ==> config.mode == StreamingOrdered && s == currentSlot
        invariant config.mode == StreamingOrdered && currentSlot in kept ==> currentSlot in streamingWatermarks
        decreases |keys|
      {
        var s :| s in keys;
        keys := keys - {s};
        if config.mode != StreamingOrdered || s != currentSlot {
          streamingWatermarks := streamingWatermarks - {s};
        }
      }
    }

    method FlushMicroBatch(now: real)
      requires Valid()
      modifies this
      ensures Valid() && State() == FlushMicro(config.mode, old(State()), now)
    {
      if |microBatch| == 0 {
        return;
      }
      var batches := Sort(microBatch);
      EmitBatches(batches);
      microBatch := [];
      microBatchStartUs := 0.0;
      lastFlushMs := now;
    }

    method PushOrderedBatch(b: Batch, now: real)
      requires Valid() && config.mode == Ordered
      modifies this
      ensures Valid() && State() == PushOrdered(old(State()), b, now)
    {
      if b.slot < currentSlot
         || (orderedWatermark.Some?
             && (b.slot < orderedWatermark.value.0 || (b.slot == orderedWatermark.value.0 && b.txIndex <= orderedWatermark.value.1))) {
        orderedLateDrops := orderedLateDrops + 1;
        dropped := dropped + [b];
        return;
      }
      if b.slot > currentSlot && currentSlot > 0 {
        FlushBeforeSlot(b.slot, now);
      }
      if b.slot > currentSlot {
        currentSlot := b.slot;
      }
      PushSlotBatch(b);
    }

    method BeginSlot(slot: nat, now: real)
      requires Valid() && config.mode == StreamingOrdered
      modifies this
      ensures Valid() && State() == EnterSlot(old(State()), slot, now)
    {
      if slot > currentSlot && currentSlot > 0 {
        FlushBeforeSlot(slot, now);
        streamingWatermarks := streamingWatermarks - (set s | s in streamingWatermarks && s < slot);
      }
      if slot > currentSlot {
        currentSlot := slot;
        streamingPending := {};
      }
    }

    // Emits the batches at the front of `buffered` that continue from `next`.
    method ReleaseFrom(buffered: seq<Batch>, next: nat) returns (released: nat)
      requires Valid() && config.mode == StreamingOrdered
      modifies this`orderedWatermark, this`sink, this`emitted, this`streamingPending
      ensures Valid() && released == ReleaseCount(buffered, next)
      ensures State() == Emit(StreamingOrdered, old(State()), buffered[..released]).(
                         pending := old(streamingPending) - TxOf(buffered[..released]))
    {
      var watermark := next;
      released := 0;
      ghost var start := State();
      assert start.emitted + [] == start.emitted && start.pending - {} == start.pending;
      while released < |buffered| && buffered[released].txIndex == watermark
        invariant Valid() && released <= ReleaseCount(buffered, next) && watermark == next + released
        invariant streamingPending == start.pending - TxOf(buffered[..released])
        invariant State() == start.(emitted := start.emitted + buffered[..released], pending := streamingPending)
      {
        ghost var more := buffered[..released + 1];
        assert more == buffered[..released] + [buffered[released]];
        assert start.emitted + buffered[..released] + [buffered[released]] == start.emitted + more;
        EmitBatch(buffered[released]);
        streamingPending := streamingPending - {watermark};
        released := released + 1;
        watermark := watermark + 1;
      }
    }

    method EmitAndRelease(b: Batch)
      requires Valid() && config.mode == StreamingOrdered
      modifies this
      ensures Valid() && State() == Release(old(State()), b)
    {
      ghost var start := State();
      EmitBatch(b);
      var watermark := b.txIndex + 1;
      if b.slot in slots {
        var buffered := Sort(slots[b.slot]);
        var released := ReleaseFrom(buffered, watermark);
        watermark := NextIndex(b, released);
        if released == |buffered| {
          slots := slots - {b.slot};
        } else {
          slots := slots[b.slot := buffered[released..]];
        }
        streamingWatermarks := streamingWatermarks[b.slot := watermark];
        SettleIs(start, b, buffered, released, State());
      } else {
        streamingWatermarks := streamingWatermarks[b.slot := NextIndex(b, 0)];
        ReleaseNothing(start, b);
      }
    }

    method PushStreamingBatch(b: Batch, now: real)
      requires Valid() && config.mode == StreamingOrdered
      modifies this
      ensures Valid() && State() == PushStreaming(old(State()), b, now)
    {
      if b.slot < currentSlot {
        dropped := dropped + [b];
        return;
      }
      BeginSlot(b.slot, now);
      var expected := if b.slot in streamingWatermarks then streamingWatermarks[b.slot] else 0;
      if b.txIndex == expected {
        EmitAndRelease(b);
      } else if b.txIndex > expected && b.txIndex !in streamingPending {
        streamingPending := streamingPending + {b.txIndex};
        PushSlotBatch(b);
      } else {
        dropped := dropped + [b];
      }
    }

    method PushMicroBatch(b: Batch, now: real)
      requires Valid() && config.mode == MicroBatch
      modifies this
      ensures Valid() && State() == PushMicro(config, old(State()), b, now)
    {
      var nowUs := now * 1000.0;
      if |microBatch| == 0 {
        microBatchStartUs := nowUs;
      }
      microBatch := microBatch + [b];
      if nowUs - microBatchStartUs >= config.microBatchUs {
        FlushMicroBatch(now);
      }
    }

    // The events in the place that the first of them names, else in the one the caller names.
    predicate IsBatchOf(b: Batch, events: seq<Event>, slot: int, txIndex: int)
      requires events != []
    {
      && b.events == events
      && match events[0].position
         case Some(place) => b.slot == place.0 && b.txIndex == place.1
         case None => b.slot == slot && b.txIndex == txIndex
    }

    /** Returns false where the program throws: the place is not a pair of u64 values. */
    method PushTransactionEvents(events: seq<Event>, fallbackSlot: int, fallbackTxIndex: int, now: real) returns (ok: bool)
      requires Valid()
      modifies this
      ensures Valid() && State() == Step(config, old(State()), PushOp(events, fallbackSlot, fallbackTxIndex, now))
      ensures ok <==> events == [] || events[0].position.Some?
                      || (0 <= fallbackSlot < U64_LIMIT && 0 <= fallbackTxIndex < U64_LIMIT)
      ensures !ok || events == [] ==> State() == old(State())
      ensures ok && events != [] ==>
                && |pushed| == |old(pushed)| + 1 && pushed[..|old(pushed)|] == old(pushed)
                && IsBatchOf(pushed[|old(pushed)|], events, fallbackSlot, fallbackTxIndex)
    {
      if |events| == 0 {
        return true;
      }
      var place := PlaceOf(events, fallbackSlot, fallbackTxIndex);
      if place.None? {
        return false;
      }
      var b := Batch(place.value.0, place.value.1, seqNo, events);
      seqNo := seqNo + 1;
      pushed := pushed + [b];
      match config.mode {
        case Unordered => EmitBatch(b);
        case Ordered => PushOrderedBatch(b, now);
        case StreamingOrdered => PushStreamingBatch(b, now);
        case MicroBatch => PushMicroBatch(b, now);
      }
      ok := true;
    }

    method FlushIfDue(now: real)
      requires Valid()
      modifies this
      ensures Valid() && State() == Step(config, old(State()), FlushDueOp(now))
    {
      if (config.mode == Ordered || config.mode == StreamingOrdered) && now - lastFlushMs > config.timeoutMs {
        FlushEverySlot(now);
      }
      if config.mode == MicroBatch {
        var nowUs := now * 1000.0;
        if |microBatch| > 0 && nowUs - microBatchStartUs >= config.microBatchUs {
          FlushMicroBatch(now);
        }
      }
    }

    method Flush(now: real)
      requires Valid()
      modifies this
      ensures Valid() && State() == Step(config, old(State()), FlushAllOp(now))
    {
      FlushEverySlot(now);
      FlushMicroBatch(now);
    }
  }

  lemma SettleIs(st: State, b: Batch, held: seq<Batch>, n: nat, end: State)
    requires n <= |held|
    requires end.slots == if n == |held| then st.slots - {b.slot} else st.slots[b.slot := held[n..]]
    requires end == st.(emitted := st.emitted + [b] + held[..n],
                        pending := st.pending - TxOf(held[..n]),
                        slots := end.slots,
                        watermarks := st.watermarks[b.slot := NextIndex(b, n)])
    ensures end == Settle(st, b, held, n)
  {
    EmitTwice(StreamingOrdered, st, [b], held[..n]);
  }

  lemma ReleaseNothing(st: State, b: Batch)
    requires b.slot !in st.slots
    ensures Release(st, b) == Emit(StreamingOrdered, st, [b]).(watermarks := st.watermarks[b.slot := NextIndex(b, 0)])
  {
    assert Sort([]) == [] && [b] + [] == [b];
    assert st.slots - {b.slot} == st.slots;
    assert st.pending - {} == st.pending;
  }
}
