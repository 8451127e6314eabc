/** What each step lets out, and when: the later slots, the due timers and the windows of the dispatcher. */
module OrderReleases {
  import opened Prelude
  import opened OrderSpec
  import opened OrderLemmas
  import opened OrderProofs
  import opened OrderedMode
  import StreamingMode

  // ----- Ordered mode: one push -----

  lemma AllIsInFront(st: State, slot: nat)
    requires Sound(st) && CurrentIsHighest(st) && st.currentSlot < slot
    ensures Front(st.slots, slot) == st.slots && Back(st.slots, slot) == map[]
  {
    forall s | s in st.slots
      ensures s < slot
    {
      var b := st.slots[s][0];
      DrainMembers(st.slots, b);
      HeldWasPushed(st, b);
    }
    assert SlotsFrom(st.slots, slot) == {};
    assert SlotsBefore(st.slots, slot) == st.slots.Keys;
  }

  lemma OnlyNew(b: Batch)
    ensures Drain(map[b.slot := [b]]) == [b]
  {
    var m := map[b.slot := [b]];
    assert Sort([b]) == [b];
    DrainStep(m, b.slot);
    assert m - {b.slot} == map[];
    assert [b] + [] == [b];
  }

  /** A later slot, unless the current one is 0: all that was buffered goes out, in order, and only the new batch stays. */
  lemma LaterPushReleases(c: Config, st: State, b: Batch, now: real)
    requires c.mode == Ordered && OrderedInv(st) && !IsLate(st, b) && b.slot > st.currentSlot > 0
    ensures var end := PushBatch(c, st, b, now);
            && end.emitted == st.emitted + Drain(st.slots) && Drain(end.slots) == [b]
            && end.currentSlot == b.slot && end.lastFlushMs == now && end.dropped == st.dropped
  {
    var end := PushBatch(c, st, b, now);
    AllIsInFront(st, b.slot);
    OnlyNew(b);
    assert [] + [b] == [b];
    assert map[][b.slot := [b]] == map[b.slot := [b]];
    assert end.slots == map[][b.slot := BatchesAt(map[], b.slot) + [b]];
  }

  /** Any other accepted batch lets nothing out. */
  lemma OtherPushHolds(c: Config, st: State, b: Batch, now: real)
    requires c.mode == Ordered && OrderedInv(st) && !IsLate(st, b) && !(b.slot > st.currentSlot > 0)
    ensures var end := PushBatch(c, st, b, now);
            && end.emitted == st.emitted && multiset(Drain(end.slots)) == multiset(Drain(st.slots)) + multiset{b}
            && end.currentSlot == b.slot && end.lastFlushMs == st.lastFlushMs && end.dropped == st.dropped
  {
    var st1 := st.(pushed := st.pushed + [b], currentSlot := b.slot);
    HeldIsBuffered(c, st, b, now);
    assert PushBatch(c, st, b, now) == Buffer(st1, b);
    DrainBuffer(st.slots, b);
  }

  lemma HeldIsBuffered(c: Config, st: State, b: Batch, now: real)
    requires c.mode == Ordered && !IsLate(st, b) && !(b.slot > st.currentSlot > 0)
    ensures PushBatch(c, st, b, now) == Buffer(st.(pushed := st.pushed + [b], currentSlot := b.slot), b)
  {
  }

  lemma LatePushHolds(c: Config, st: State, b: Batch, now: real)
    requires c.mode == Ordered && IsLate(st, b)
    ensures var end := PushBatch(c, st, b, now);
            && end.emitted == st.emitted && end.slots == st.slots && end.currentSlot == st.currentSlot
            && end.lastFlushMs == st.lastFlushMs && end.dropped == st.dropped + [b]
  {
  }

  // ----- Full flushes and timers, for the two modes with slots -----

  predicate HasSlots(c: Config) {
    c.mode == Ordered || c.mode == StreamingOrdered
  }

  predicate IsDue(c: Config, st: State, now: real) {
    now - st.lastFlushMs > c.timeoutMs
  }

  // All that was buffered went out, in order, at this time.
  ghost predicate LetsAllOut(st: State, end: State, now: real) {
    end.emitted == st.emitted + Drain(st.slots) && end.slots == map[] && end.lastFlushMs == now
    && end.currentSlot == st.currentSlot && end.dropped == st.dropped && end.pushed == st.pushed
  }

  /** A timer call lets everything out if more than the time limit has passed since the last flush, else nothing. */
  lemma DueLetsAllOut(c: Config, st: State, now: real)
    requires HasSlots(c)
    ensures if IsDue(c, st, now) then LetsAllOut(st, FlushDue(c, st, now), now) else FlushDue(c, st, now) == st
  {
  }

  lemma FlushLetsAllOut(c: Config, st: State, now: real)
    requires HasSlots(c) && st.micro == []
    ensures LetsAllOut(st, FlushAll(c, st, now), now)
  {
  }

  // ----- Ordered mode: which slots are buffered -----

  // Something buffered is of an earlier slot than the current one.
  ghost predicate LeftBehind(st: State) {
    exists h :: h in Drain(st.slots) && h.slot < st.currentSlot
  }

  // The batch that an operation pushes, if it has a place.
  function Pushed(st: State, op: Op): Option<Batch> {
    if !op.PushOp? || op.events == [] then None
    else
      match PlaceOf(op.events, op.slot, op.txIndex)
      case None => None
      case Some((s, i)) => Some(Batch(s, i, |st.pushed|, op.events))
  }

  predicate Accepts(st: State, op: Op) {
    Pushed(st, op).Some? && !IsLate(st, Pushed(st, op).value)
  }

  /** The first accepted push beyond slot 0 while batches of slot 0 are buffered. */
  ghost predicate LeavesZero(st: State, op: Op) {
    Accepts(st, op) && st.currentSlot == 0 && Pushed(st, op).value.slot > 0 && Drain(st.slots) != []
  }

  /** Everything buffered before goes out: a full flush, a due timer, or an accepted push of a later slot. */
  predicate LetsOut(c: Config, st: State, op: Op) {
    match op
    case PushOp(_, _, _, _) => Accepts(st, op) && Pushed(st, op).value.slot > st.currentSlot > 0
    case FlushDueOp(now) => IsDue(c, st, now)
    case FlushAllOp(_) => true
  }

  lemma PushStep(c: Config, st: State, op: Op)
    requires op.PushOp?
    ensures Step(c, st, op) == if Pushed(st, op).Some? then PushBatch(c, st, Pushed(st, op).value, op.now) else st
  {
  }

  lemma BufferedIsNotLater(st: State, h: Batch)
    requires OrderedInv(st) && h in Drain(st.slots)
    ensures h.slot <= st.currentSlot
  {
    HeldWasPushed(st, h);
  }

  lemma NothingLeftBehind(st: State)
    requires Drain(st.slots) == []
    ensures !LeftBehind(st)
  {
  }

  lemma HeldNow(c: Config, st: State, b: Batch, now: real, h: Batch)
    requires c.mode == Ordered && OrderedInv(st) && !IsLate(st, b) && !(b.slot > st.currentSlot > 0)
    ensures h in Drain(PushBatch(c, st, b, now).slots) <==> h in Drain(st.slots) || h == b
  {
    var drained := Drain(PushBatch(c, st, b, now).slots);
    OtherPushHolds(c, st, b, now);
    assert h in drained <==> h in multiset(drained);
    assert h in Drain(st.slots) <==> h in multiset(Drain(st.slots));
  }

  // The buffered batches `before`, and the new one, behind slot `to`.
  lemma BehindNow(before: seq<Batch>, after: seq<Batch>, b: Batch, from: nat)
    requires from <= b.slot && (from == 0 || from == b.slot)
    requires forall h: Batch :: h in after <==> h in before || h == b
    requires forall h :: h in before ==> h.slot <= from
    ensures (exists h :: h in after && h.slot < b.slot) <==>
            (exists h :: h in before && h.slot < from) || (from == 0 && b.slot > 0 && before != [])
  {
    if from == 0 && before != [] {
      assert before[0] in after;
    }
  }

  // A push that lets nothing out leaves behind what was behind, and slot 0 if it is the first beyond.
  lemma HeldLeavesBehind(c: Config, st: State, b: Batch, now: real)
    requires c.mode == Ordered && OrderedInv(st) && !IsLate(st, b) && !(b.slot > st.currentSlot > 0)
    ensures LeftBehind(PushBatch(c, st, b, now)) <==> LeftBehind(st) || (st.currentSlot == 0 && b.slot > 0 && Drain(st.slots) != [])
  {
    OtherPushHolds(c, st, b, now);
    forall h: Batch
      ensures h in Drain(PushBatch(c, st, b, now).slots) <==> h in Drain(st.slots) || h == b
    {
      HeldNow(c, st, b, now, h);
    }
    forall h | h in Drain(st.slots)
      ensures h.slot <= st.currentSlot
    {
      BufferedIsNotLater(st, h);
    }
    BehindNow(Drain(st.slots), Drain(PushBatch(c, st, b, now).slots), b, st.currentSlot);
  }

  lemma PushLeavesBehind(c: Config, st: State, op: Op)
    requires c.mode == Ordered && OrderedInv(st) && op.PushOp?
    ensures LeftBehind(Step(c, st, op)) <==> LeavesZero(st, op) || (LeftBehind(st) && !LetsOut(c, st, op))
  {
    PushStep(c, st, op);
    if Pushed(st, op).Some? {
      var b := Pushed(st, op).value;
      if IsLate(st, b) {
        LateLeavesAll(c, st, b, op.now);
      } else if b.slot > st.currentSlot > 0 {
        LaterLeavesNothing(c, st, b, op.now);
      } else {
        HeldLeavesBehind(c, st, b, op.now);
      }
    }
  }

  lemma LateLeavesAll(c: Config, st: State, b: Batch, now: real)
    requires c.mode == Ordered && IsLate(st, b)
    ensures LeftBehind(PushBatch(c, st, b, now)) <==> LeftBehind(st)
  {
    LatePushHolds(c, st, b, now);
  }

  lemma LaterLeavesNothing(c: Config, st: State, b: Batch, now: real)
    requires c.mode == Ordered && OrderedInv(st) && !IsLate(st, b) && b.slot > st.currentSlot > 0
    ensures !LeftBehind(PushBatch(c, st, b, now))
  {
    LaterPushReleases(c, st, b, now);
  }

  lemma StepLeavesBehind(c: Config, st: State, op: Op)
    requires c.mode == Ordered && OrderedInv(st)
    ensures LeftBehind(Step(c, st, op)) <==> LeavesZero(st, op) || (LeftBehind(st) && !LetsOut(c, st, op))
  {
    DrainNothing();
    match op
    case PushOp(_, _, _, _) => PushLeavesBehind(c, st, op);
    case FlushDueOp(now) =>
      DueLetsAllOut(c, st, now);
      if IsDue(c, st, now) {
        NothingLeftBehind(Step(c, st, op));
      }
    case FlushAllOp(now) =>
      FlushLetsAllOut(c, st, now);
      NothingLeftBehind(Step(c, st, op));
  }

  // The places where batches of slot 0 are left behind, and those where what was left goes out.
  ghost function ZeroLeft(c: Config, start: real, ops: seq<Op>): nat -> bool {
    (k: nat) => k < |ops| && LeavesZero(Run(c, start, ops[..k]), ops[k])
  }

  function AllOut(c: Config, start: real, ops: seq<Op>): nat -> bool {
    (k: nat) => k < |ops| && LetsOut(c, Run(c, start, ops[..k]), ops[k])
  }

  // At `k` something is left, and it goes out nowhere between `k` and `n`.
  ghost predicate LeftSince(left: nat -> bool, out: nat -> bool, n: nat, k: nat) {
    k < n && left(k) && forall j: nat :: k < j < n ==> !out(j)
  }

  ghost predicate LeftSinceSome(left: nat -> bool, out: nat -> bool, n: nat) {
    exists k: nat :: LeftSince(left, out, n, k)
  }

  lemma LeftSinceNext(left: nat -> bool, out: nat -> bool, n: nat)
    ensures LeftSinceSome(left, out, n + 1) <==> left(n) || (LeftSinceSome(left, out, n) && !out(n))
  {
    if LeftSinceSome(left, out, n + 1) {
      var k: nat :| LeftSince(left, out, n + 1, k);
      if k < n {
        assert LeftSince(left, out, n, k);
      }
    }
    if left(n) {
      assert LeftSince(left, out, n + 1, n);
    }
    if LeftSinceSome(left, out, n) && !out(n) {
      var k: nat :| LeftSince(left, out, n, k);
      assert LeftSince(left, out, n + 1, k);
    }
  }

  lemma RunNext(c: Config, start: real, ops: seq<Op>, n: nat)
    requires n < |ops|
    ensures Run(c, start, ops[..n + 1]) == Step(c, Run(c, start, ops[..n]), ops[n])
  {
    assert ops[..n + 1][..n] == ops[..n];
  }

  ghost function Behind(c: Config, start: real, ops: seq<Op>): nat -> bool {
    (k: nat) => k <= |ops| && LeftBehind(Run(c, start, ops[..k]))
  }

  predicate Carries(behind: nat -> bool, left: nat -> bool, out: nat -> bool, k: nat) {
    behind(k + 1) <==> left(k) || (behind(k) && !out(k))
  }

  lemma LeftBehindNext(c: Config, start: real, ops: seq<Op>, n: nat)
    requires c.mode == Ordered && n < |ops|
    ensures Carries(Behind(c, start, ops), ZeroLeft(c, start, ops), AllOut(c, start, ops), n)
  {
    OrderedRun(c, start, ops[..n]);
    RunNext(c, start, ops, n);
    StepLeavesBehind(c, Run(c, start, ops[..n]), ops[n]);
  }

  // What is left, and has not gone out since, is behind.
  lemma {:induction false} StaysBehind(behind: nat -> bool, left: nat -> bool, out: nat -> bool, n: nat)
    requires !behind(0) && forall k: nat :: k < n ==> Carries(behind, left, out, k)
    ensures behind(n) <==> LeftSinceSome(left, out, n)
  {
    if n > 0 {
      StaysBehind(behind, left, out, n - 1);
      LeftSinceNext(left, out, n - 1);
      assert Carries(behind, left, out, n - 1);
    }
  }

  lemma NothingBehindAtFirst(c: Config, start: real, ops: seq<Op>)
    ensures !Behind(c, start, ops)(0)
  {
    DrainNothing();
    assert ops[..0] == [];
  }

  /**
   Over every run in Ordered mode: something buffered is of an earlier slot than the highest pushed if and
   only if batches of slot 0 were buffered when the first push beyond slot 0 was accepted, and since then
   there was no full flush, no due timer and no accepted push of a later slot.
   */
  lemma LeftBehindExactly(c: Config, start: real, ops: seq<Op>)
    requires c.mode == Ordered
    ensures LeftBehind(Run(c, start, ops)) <==>
            exists k: nat :: LeftSince(ZeroLeft(c, start, ops), AllOut(c, start, ops), |ops|, k)
  {
    assert ops[..|ops|] == ops;
    var behind, left, out := Behind(c, start, ops), ZeroLeft(c, start, ops), AllOut(c, start, ops);
    NothingBehindAtFirst(c, start, ops);
    forall k: nat | k < |ops|
      ensures Carries(behind, left, out, k)
    {
      LeftBehindNext(c, start, ops, k);
    }
    StaysBehind(behind, left, out, |ops|);
  }

  // ----- With slots of at least 1 -----

  // Nothing of slot 0 was pushed, so nothing of slot 0 can be left behind.
  lemma NeverLeavesZero(st: State, op: Op)
    requires OrderedInv(st) && forall b :: b in st.pushed ==> b.slot >= 1
    ensures !LeavesZero(st, op)
  {
    if Drain(st.slots) != [] {
      var h := Drain(st.slots)[0];
      BufferedIsNotLater(st, h);
      HeldWasPushed(st, h);
    }
  }

  lemma NeverLeftSince(c: Config, start: real, ops: seq<Op>, k: nat)
    requires c.mode == Ordered && forall b :: b in Run(c, start, ops).pushed ==> b.slot >= 1
    ensures !LeftSince(ZeroLeft(c, start, ops), AllOut(c, start, ops), |ops|, k)
  {
    if k < |ops| {
      StreamingMode.EarlierPushes(c, start, ops, k);
      OrderedRun(c, start, ops[..k]);
      NeverLeavesZero(Run(c, start, ops[..k]), ops[k]);
    }
  }

  lemma NeverLeftBehind(c: Config, start: real, ops: seq<Op>)
    requires c.mode == Ordered && forall b :: b in Run(c, start, ops).pushed ==> b.slot >= 1
    ensures !LeftBehind(Run(c, start, ops))
  {
    LeftBehindExactly(c, start, ops);
    forall k: nat
      ensures !LeftSince(ZeroLeft(c, start, ops), AllOut(c, start, ops), |ops|, k)
    {
      NeverLeftSince(c, start, ops, k);
    }
  }

  /**
   Over every run in Ordered mode with slots of at least 1: all that is buffered is of the highest slot
   pushed, and every accepted batch of an earlier slot has been emitted.
   */
  lemma EarlierSlotsAreOut(c: Config, start: real, ops: seq<Op>)
    requires c.mode == Ordered && forall b :: b in Run(c, start, ops).pushed ==> b.slot >= 1
    ensures var st := Run(c, start, ops);
            && (forall h, p :: h in Drain(st.slots) && p in st.pushed ==> p.slot <= h.slot)
            && (forall b, p :: b in st.pushed && b !in st.dropped && p in st.pushed && p.slot > b.slot ==> b in st.emitted)
  {
    var st := Run(c, start, ops);
    OrderedRun(c, start, ops);
    NeverLeftBehind(c, start, ops);
    forall h, p | h in Drain(st.slots) && p in st.pushed
      ensures p.slot <= h.slot
    {
      BufferedIsNotLater(st, h);
    }
    forall b, p | b in st.pushed && b !in st.dropped && p in st.pushed && p.slot > b.slot
      ensures b in st.emitted
    {
      PushedIsSomewhere(st, b);
    }
  }

  lemma PushedIsSomewhere(st: State, b: Batch)
    requires OrderedInv(st) && b in st.pushed
    ensures b in st.emitted || b in Drain(st.slots) || b in st.dropped
  {
    assert b in multiset(st.pushed);
    assert b in Accounted(st);
  }

  // ----- The time of the last flush -----

  // When operation `op` moves the clock of the timer.
  predicate Flushes(c: Config, st: State, op: Op) {
    match op
    case PushOp(_, _, _, now) => (match c.mode
      case Unordered => false
      case Ordered => LetsOut(c, st, op)
      case StreamingOrdered => Pushed(st, op).Some? && Pushed(st, op).value.slot > st.currentSlot > 0
      case MicroBatch => Pushed(st, op).Some? && WindowEnds(c, st, now))
    case FlushDueOp(now) => (if c.mode == MicroBatch then st.micro != [] && WindowEnds(c, st, now) else HasSlots(c) && IsDue(c, st, now))
    case FlushAllOp(_) => true
  }

  // When a batch arrives or the timer fires, the window has been open long enough; a window opens with its first batch.
  predicate WindowEnds(c: Config, st: State, now: real) {
    (if st.micro == [] then 0.0 else now * 1000.0 - st.microStartUs) >= c.microBatchUs
  }

  function TimeOf(op: Op): real {
    match op
    case PushOp(_, _, _, now) => now
    case FlushDueOp(now) => now
    case FlushAllOp(now) => now
  }

  lemma PlaceKeepsClock(st: State, b: Batch)
    ensures Place(st, b).lastFlushMs == st.lastFlushMs
  {
  }

  lemma PushMovesClock(c: Config, st: State, op: Op)
    requires op.PushOp?
    ensures Step(c, st, op).lastFlushMs == if Flushes(c, st, op) then op.now else st.lastFlushMs
  {
    PushStep(c, st, op);
    if Pushed(st, op).Some? {
      var b := Pushed(st, op).value;
      var st1 := st.(pushed := st.pushed + [b]);
      match c.mode
      case StreamingOrdered => PlaceKeepsClock(EnterSlot(st1, b.slot, op.now), b);
      case _ =>
    }
  }

  /** The clock that a timer call is measured by is the time of the last flush. */
  lemma StepMovesClock(c: Config, st: State, op: Op)
    ensures Step(c, st, op).lastFlushMs == if Flushes(c, st, op) then TimeOf(op) else st.lastFlushMs
  {
    if op.PushOp? {
      PushMovesClock(c, st, op);
    }
  }

  function LastFlush(c: Config, start: real, ops: seq<Op>): real {
    if ops == [] then start
    else if Flushes(c, Run(c, start, ops[..|ops| - 1]), ops[|ops| - 1]) then TimeOf(ops[|ops| - 1])
    else LastFlush(c, start, ops[..|ops| - 1])
  }

  lemma {:induction false} ClockIsLastFlush(c: Config, start: real, ops: seq<Op>)
    ensures Run(c, start, ops).lastFlushMs == LastFlush(c, start, ops)
    decreases |ops|
  {
    if ops != [] {
      ClockIsLastFlush(c, start, ops[..|ops| - 1]);
      StepMovesClock(c, Run(c, start, ops[..|ops| - 1]), ops[|ops| - 1]);
    }
  }

  /**
   Over every run of the two modes with slots: a timer call lets out everything that is buffered, in order,
   if more than the time limit has passed since the last flush, and nothing otherwise.
   */
  lemma TimerExactly(c: Config, start: real, ops: seq<Op>, now: real)
    requires HasSlots(c)
    ensures var st := Run(c, start, ops);
            if now - LastFlush(c, start, ops) > c.timeoutMs then LetsAllOut(st, FlushDue(c, st, now), now)
            else FlushDue(c, st, now) == st
  {
    ClockIsLastFlush(c, start, ops);
    DueLetsAllOut(c, Run(c, start, ops), now);
  }

  // ----- MicroBatch mode -----

  // The whole window, with what has just arrived, goes out in order.
  ghost predicate WindowGoes(st: State, end: State, window: seq<Batch>) {
    exists out :: InOrder(out) && multiset(out) == multiset(window) && end.emitted == st.emitted + out && end.micro == []
  }

  lemma FlushMicroGoes(st: State, now: real)
    requires st.micro != []
    ensures WindowGoes(st, FlushMicro(MicroBatch, st, now), st.micro)
  {
    assert InOrder(Sort(st.micro)) && multiset(Sort(st.micro)) == multiset(st.micro);
  }

  /** A push ends the window if that has been open long enough: all of it goes out in order; else it joins the window. */
  lemma MicroPushExactly(c: Config, st: State, b: Batch, now: real)
    requires c.mode == MicroBatch
    ensures var end := PushBatch(c, st, b, now);
            if WindowEnds(c, st, now) then WindowGoes(st, end, st.micro + [b])
            else end.emitted == st.emitted && end.micro == st.micro + [b]
  {
    var started := if st.micro == [] then now * 1000.0 else st.microStartUs;
    var st1 := st.(pushed := st.pushed + [b], microStartUs := started, micro := st.micro + [b]);
    FlushMicroGoes(st1, now);
  }

  /** A timer call ends the window exactly if there is one and it has been open long enough. */
  lemma MicroTimerExactly(c: Config, st: State, now: real)
    requires c.mode == MicroBatch
    ensures if st.micro != [] && WindowEnds(c, st, now) then WindowGoes(st, FlushDue(c, st, now), st.micro) else FlushDue(c, st, now) == st
  {
    if st.micro != [] {
      FlushMicroGoes(st, now);
    }
  }

  function Windows(c: Config, start: real, ops: seq<Op>): nat -> seq<Batch> {
    (j: nat) => if j <= |ops| then Run(c, start, ops[..j]).micro else []
  }

  // The window was empty before operation `k`, and has not been since.
  ghost predicate OpenedIn(windows: nat -> seq<Batch>, n: nat, k: nat) {
    k < n && windows(k) == [] && forall j: nat :: k < j <= n ==> windows(j) != []
  }

  // The window after `n` operations was opened by operation `k`, a push, and bears its time.
  ghost predicate OpenedBy(c: Config, start: real, ops: seq<Op>, n: nat, k: nat)
    requires n <= |ops|
  {
    && OpenedIn(Windows(c, start, ops), n, k) && ops[k].PushOp?
    && Run(c, start, ops[..n]).microStartUs == ops[k].now * 1000.0
  }

  lemma StepKeepsStart(c: Config, st: State, op: Op)
    requires c.mode == MicroBatch && Step(c, st, op).micro != []
    ensures Step(c, st, op).microStartUs == if st.micro == [] then TimeOf(op) * 1000.0 else st.microStartUs
    ensures st.micro == [] ==> op.PushOp?
  {
  }

  lemma OpenedNext(windows: nat -> seq<Batch>, n: nat, k: nat)
    requires OpenedIn(windows, n, k) && windows(n + 1) != []
    ensures OpenedIn(windows, n + 1, k)
  {
  }

  lemma {:induction false} WindowIsOpened(c: Config, start: real, ops: seq<Op>, n: nat) returns (k: nat)
    requires c.mode == MicroBatch && n <= |ops| && Run(c, start, ops[..n]).micro != []
    ensures OpenedBy(c, start, ops, n, k)
  {
    NoWindowAtFirst(c, start, ops);
    if n > 0 {
      StartNext(c, start, ops, n - 1);
      if Run(c, start, ops[..n - 1]).micro == [] {
        k := n - 1;
        OpenedFirst(Windows(c, start, ops), k);
      } else {
        k := WindowIsOpened(c, start, ops, n - 1);
        OpenedNext(Windows(c, start, ops), n - 1, k);
      }
    }
  }

  lemma StartNext(c: Config, start: real, ops: seq<Op>, n: nat)
    requires c.mode == MicroBatch && n < |ops| && Run(c, start, ops[..n + 1]).micro != []
    ensures var before, after := Run(c, start, ops[..n]), Run(c, start, ops[..n + 1]);
            if before.micro == [] then ops[n].PushOp? && after.microStartUs == ops[n].now * 1000.0
            else after.microStartUs == before.microStartUs
  {
    RunNext(c, start, ops, n);
    StepKeepsStart(c, Run(c, start, ops[..n]), ops[n]);
  }

  lemma NoWindowAtFirst(c: Config, start: real, ops: seq<Op>)
    ensures Run(c, start, ops[..0]).micro == []
  {
    assert ops[..0] == [];
  }

  lemma OpenedFirst(windows: nat -> seq<Batch>, k: nat)
    requires windows(k) == [] && windows(k + 1) != []
    ensures OpenedIn(windows, k + 1, k)
  {
  }

  /** Over every run in MicroBatch mode: the time of an open window is that of the push that opened it. */
  lemma WindowIsTimed(c: Config, start: real, ops: seq<Op>)
    requires c.mode == MicroBatch && Run(c, start, ops).micro != []
    ensures exists k: nat :: OpenedBy(c, start, ops, |ops|, k)
  {
    assert ops[..|ops|] == ops;
    var k := WindowIsOpened(c, start, ops, |ops|);
  }
}
