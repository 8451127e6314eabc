/**
 What the order dispatcher does, as a state machine over values: one transition for a pushed
 transaction, one for a due timer, one for a full flush. Loops of the program appear here by
 their net effect, `Drain` and `ReleaseCount`.
 */
module OrderSpec {
  import opened Prelude

  const U64_LIMIT: nat := 0x1_0000_0000_0000_0000

  // `position` is the event's own slot and transaction index, when it carries metadata.
  datatype Event = Event(id: nat, position: Option<(nat, nat)>)

  // `seqNo` is the arrival number.
  datatype Batch = Batch(slot: nat, txIndex: nat, seqNo: nat, events: seq<Event>)

  datatype Mode = Unordered | Ordered | StreamingOrdered | MicroBatch

  datatype Config = Config(mode: Mode, timeoutMs: real, microBatchUs: real)

  type Slots = map<nat, seq<Batch>>

  // `pushed`, `emitted` and `dropped` record the whole run.
  datatype State = State(slots: Slots, watermarks: map<nat, nat>, pending: set<nat>, micro: seq<Batch>,
                         microStartUs: real, lastFlushMs: real, currentSlot: nat,
                         orderedWatermark: Option<(nat, nat)>, lateDrops: nat,
                         pushed: seq<Batch>, emitted: seq<Batch>, dropped: seq<Batch>)

  // ----- Order -----

  predicate KeyLess(a: Batch, b: Batch) {
    a.slot < b.slot || (a.slot == b.slot && a.txIndex < b.txIndex)
  }

  predicate Before(a: Batch, b: Batch) {
    KeyLess(a, b) || (a.slot == b.slot && a.txIndex == b.txIndex && a.seqNo < b.seqNo)
  }

  ghost predicate Ascending(less: (Batch, Batch) -> bool, bs: seq<Batch>) {
    forall i, j :: 0 <= i < j < |bs| ==> less(bs[i], bs[j])
  }

  predicate InOrder(bs: seq<Batch>) {
    forall i, j :: 0 <= i < j < |bs| ==> !Before(bs[j], bs[i])
  }

  // The result of the library sort under the batch comparison.
  function Sort(bs: seq<Batch>): (r: seq<Batch>)
    ensures |r| == |bs| && multiset(r) == multiset(bs)
    ensures InOrder(r)
  {
    if bs == [] then []
    else
      assert bs == [bs[0]] + bs[1..];
      InsertInOrder(bs[0], Sort(bs[1..]));
      Insert(bs[0], Sort(bs[1..]))
  }

  function Insert(b: Batch, bs: seq<Batch>): (r: seq<Batch>)
    ensures |r| == |bs| + 1 && multiset(r) == multiset(bs) + multiset{b}
  {
    if bs == [] then [b]
    else if Before(b, bs[0]) then [b] + bs
    else
      assert bs == [bs[0]] + bs[1..];
      [bs[0]] + Insert(b, bs[1..])
  }

  lemma {:induction false} InsertInOrder(b: Batch, bs: seq<Batch>)
    requires InOrder(bs)
    ensures InOrder(Insert(b, bs))
  {
    if bs != [] && !Before(b, bs[0]) {
      var tail := Insert(b, bs[1..]);
      InsertInOrder(b, bs[1..]);
      forall j | 0 <= j < |tail|
        ensures !Before(tail[j], bs[0])
      {
        assert tail[j] in multiset(tail);
        assert tail[j] == b || tail[j] in bs[1..];
      }
    }
  }

  function MinKey(ks: set<nat>): (k: nat)
    requires ks != {}
    ensures k in ks && forall x :: x in ks ==> k <= x
  {
    HasMin(ks, var k :| k in ks; k);
    var k :| k in ks && forall x :: x in ks ==> k <= x;
    k
  }

  lemma {:induction false} HasMin(ks: set<nat>, k: nat)
    requires k in ks
    ensures exists m :: m in ks && forall x :: x in ks ==> m <= x
  {
    if !forall x :: x in ks ==> k <= x {
      var x :| x in ks && x < k;
      HasMin(ks, x);
    }
  }

  // All buffered batches, slot by slot in increasing order and sorted within a slot.
  function Drain(m: Slots): seq<Batch>
    decreases |m|
  {
    if m == map[] then []
    else
      var k := MinKey(m.Keys);
      assert |(m - {k}).Keys| == |m.Keys - {k}|;
      Sort(m[k]) + Drain(m - {k})
  }

  // ----- Transitions -----

  function BatchesAt(m: Slots, slot: nat): seq<Batch> {
    if slot in m then m[slot] else []
  }

  function Expected(st: State, slot: nat): nat {
    if slot in st.watermarks then st.watermarks[slot] else 0
  }

  function Emit(mode: Mode, st: State, bs: seq<Batch>): (r: State)
    ensures r.pushed == st.pushed
  {
    st.(emitted := st.emitted + bs,
        orderedWatermark := if mode == Ordered && bs != [] then Some((bs[|bs| - 1].slot, bs[|bs| - 1].txIndex))
                            else st.orderedWatermark)
  }

  function Drop(st: State, b: Batch): State {
    st.(dropped := st.dropped + [b])
  }

  function Buffer(st: State, b: Batch): State {
    st.(slots := st.slots[b.slot := BatchesAt(st.slots, b.slot) + [b]])
  }

  function Hold(st: State, b: Batch): State {
    Buffer(st, b).(pending := st.pending + {b.txIndex})
  }

  function SlotsBefore(m: Slots, slot: nat): set<nat> {
    set s | s in m && s < slot
  }

  function SlotsFrom(m: Slots, slot: nat): set<nat> {
    set s | s in m && s >= slot
  }

  // The slots before a bound, and the others.
  function Front(m: Slots, bound: nat): Slots {
    m - SlotsFrom(m, bound)
  }

  function Back(m: Slots, bound: nat): Slots {
    m - SlotsBefore(m, bound)
  }

  function FlushBefore(mode: Mode, st: State, slot: nat, now: real): (r: State)
    ensures r.pushed == st.pushed
  {
    Emit(mode, st, Drain(Front(st.slots, slot))).(
    slots := Back(st.slots, slot),
    watermarks := st.watermarks - SlotsBefore(st.slots, slot),
    lastFlushMs := now)
  }

  // The watermark past everything just flushed from a slot, never going back.
  function PastAll(held: seq<Batch>, expected: nat): nat {
    if held != [] && held[|held| - 1].txIndex + 1 > expected then held[|held| - 1].txIndex + 1 else expected
  }

  // After a flush only the current slot keeps a watermark.
  function FlushedWatermarks(st: State): map<nat, nat> {
    var c := st.currentSlot;
    var bs := BatchesAt(st.slots, c);
    if bs != [] || c in st.watermarks then map[c := PastAll(Sort(bs), Expected(st, c))] else map[]
  }

  function FlushAllSlots(mode: Mode, st: State, now: real): (r: State)
    ensures r.pushed == st.pushed
  {
    Emit(mode, st, Drain(st.slots)).(
    slots := map[],
    pending := {},
    watermarks := if mode == StreamingOrdered then FlushedWatermarks(st) else map[],
    lastFlushMs := now)
  }

  function FlushMicro(mode: Mode, st: State, now: real): (r: State)
    ensures r.pushed == st.pushed
  {
    if st.micro == [] then st
    else Emit(mode, st, Sort(st.micro)).(micro := [], microStartUs := 0.0, lastFlushMs := now)
  }

  predicate IsLate(st: State, b: Batch) {
    || b.slot < st.currentSlot
    || (st.orderedWatermark.Some? && !(var (s, i) := st.orderedWatermark.value; s < b.slot || (s == b.slot && i < b.txIndex)))
  }

  function PushOrdered(st: State, b: Batch, now: real): (r: State)
    ensures r.pushed == st.pushed
  {
    if IsLate(st, b) then Drop(st, b).(lateDrops := st.lateDrops + 1)
    else Buffer(OpenSlot(st, b.slot, now), b)
  }

  // A later slot closes the ones before it, unless the current slot is 0.
  function OpenSlot(st: State, slot: nat, now: real): (r: State)
    ensures r.pushed == st.pushed
  {
    var st1 := if slot > st.currentSlot > 0 then FlushBefore(Ordered, st, slot, now) else st;
    st1.(currentSlot := slot)
  }

  function EnterSlot(st: State, slot: nat, now: real): (r: State)
    ensures r.pushed == st.pushed
  {
    if slot <= st.currentSlot then st
    else
      var st1 := if st.currentSlot > 0 then
                   var flushed := FlushBefore(StreamingOrdered, st, slot, now);
                   flushed.(watermarks := flushed.watermarks - (set s | s in flushed.watermarks && s < slot))
                 else st;
      st1.(currentSlot := slot, pending := {})
  }

  function TxOf(bs: seq<Batch>): set<nat> {
    set b | b in bs :: b.txIndex
  }

  // How many batches at the front continue the transaction indices from `next`.
  function ReleaseCount(bs: seq<Batch>, next: nat): (n: nat)
    ensures n <= |bs|
    ensures forall i :: 0 <= i < n ==> bs[i].txIndex == next + i
    ensures n < |bs| ==> bs[n].txIndex != next + n
  {
    if bs == [] || bs[0].txIndex != next then 0 else 1 + ReleaseCount(bs[1..], next + 1)
  }

  // The index after `b` and the `n` batches released with it.
  function NextIndex(b: Batch, n: nat): nat {
    b.txIndex + 1 + n
  }

  // Emits `b` and the first `n` of the batches held in its slot; the others stay.
  function Settle(st: State, b: Batch, held: seq<Batch>, n: nat): (r: State)
    requires n <= |held|
    ensures r.pushed == st.pushed
  {
    Emit(StreamingOrdered, st, [b] + held[..n]).(
    pending := st.pending - TxOf(held[..n]),
    slots := if n == |held| then st.slots - {b.slot} else st.slots[b.slot := held[n..]],
    watermarks := st.watermarks[b.slot := NextIndex(b, n)])
  }

  // The batches buffered in a slot, in order, and how many of them follow `b` without a gap.
  function Held(st: State, slot: nat): seq<Batch> {
    Sort(BatchesAt(st.slots, slot))
  }

  function Following(st: State, b: Batch): (n: nat)
    ensures n <= |Held(st, b.slot)|
  {
    ReleaseCount(Held(st, b.slot), b.txIndex + 1)
  }

  function Release(st: State, b: Batch): (r: State)
    ensures r.pushed == st.pushed
  {
    Settle(st, b, Held(st, b.slot), Following(st, b))
  }

  function Place(st: State, b: Batch): (r: State)
    ensures r.pushed == st.pushed
  {
    var expected := Expected(st, b.slot);
    if b.txIndex == expected then Release(st, b)
    else if b.txIndex > expected && b.txIndex !in st.pending then Hold(st, b)
    else Drop(st, b)
  }

  function PushStreaming(st: State, b: Batch, now: real): (r: State)
    ensures r.pushed == st.pushed
  {
    if b.slot < st.currentSlot then Drop(st, b) else Place(EnterSlot(st, b.slot, now), b)
  }

  function PushMicro(c: Config, st: State, b: Batch, now: real): (r: State)
    ensures r.pushed == st.pushed
  {
    var st1 := st.(microStartUs := if st.micro == [] then now * 1000.0 else st.microStartUs, micro := st.micro + [b]);
    if now * 1000.0 - st1.microStartUs >= c.microBatchUs then FlushMicro(c.mode, st1, now) else st1
  }

  function PushBatch(c: Config, st: State, b: Batch, now: real): (r: State)
    ensures r.pushed == st.pushed + [b]
  {
    var st1 := st.(pushed := st.pushed + [b]);
    match c.mode
    case Unordered => Emit(Unordered, st1, [b])
    case Ordered => PushOrdered(st1, b, now)
    case StreamingOrdered => PushStreaming(st1, b, now)
    case MicroBatch => PushMicro(c, st1, b, now)
  }

  function FlushDue(c: Config, st: State, now: real): State {
    if c.mode == Ordered || c.mode == StreamingOrdered then
      if now - st.lastFlushMs > c.timeoutMs then FlushAllSlots(c.mode, st, now) else st
    else if c.mode == MicroBatch && st.micro != [] && now * 1000.0 - st.microStartUs >= c.microBatchUs then
      FlushMicro(c.mode, st, now)
    else st
  }

  function FlushAll(c: Config, st: State, now: real): State {
    FlushMicro(c.mode, FlushAllSlots(c.mode, st, now), now)
  }

  // The place of a transaction: its first event's metadata, else the caller's numbers if they are u64.
  function PlaceOf(events: seq<Event>, slot: int, txIndex: int): Option<(nat, nat)>
    requires events != []
  {
    if events[0].position.Some? then events[0].position
    else if 0 <= slot < U64_LIMIT && 0 <= txIndex < U64_LIMIT then Some((slot, txIndex))
    else None
  }

  // A transaction with no events is ignored; one without a place is refused before it gets a number.
  function Push(c: Config, st: State, events: seq<Event>, slot: int, txIndex: int, now: real): State {
    if events == [] then st
    else
      match PlaceOf(events, slot, txIndex)
      case None => st
      case Some((s, i)) => PushBatch(c, st, Batch(s, i, |st.pushed|, events), now)
  }

  datatype Op =
    | PushOp(events: seq<Event>, slot: int, txIndex: int, now: real)
    | FlushDueOp(now: real)
    | FlushAllOp(now: real)

  function Step(c: Config, st: State, op: Op): State {
    match op
    case PushOp(events, slot, txIndex, now) => Push(c, st, events, slot, txIndex, now)
    case FlushDueOp(now) => FlushDue(c, st, now)
    case FlushAllOp(now) => FlushAll(c, st, now)
  }

  function Start(now: real): State {
    State(map[], map[], {}, [], 0.0, now, 0, None, 0, [], [], [])
  }

  function Run(c: Config, start: real, ops: seq<Op>): State {
    if ops == [] then Start(start) else Step(c, Run(c, start, ops[..|ops| - 1]), ops[|ops| - 1])
  }
}
