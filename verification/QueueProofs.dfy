/** What every run of the queue keeps: order, capacity, and an account of every push and request. */
module QueueProofs {
  import opened Prelude
  import opened QueueSpec

  // ----- The history, one answer longer -----

  lemma AnswerNext(h: seq<Answer>, a: Answer)
    ensures Delivered(h + [a]) == Delivered(h) + (if a.Item? then [a.push] else [])
    ensures Served(h + [a]) == Served(h) + (if a.Item? && a.request.Some? then [a.request.value] else [])
    ensures Ended(h + [a]) == Ended(h) + (if a.End? then [a.reader] else [])
  {
    assert (h + [a])[..|h|] == h;
  }

  // What a history `g` says that adds to `h` the ends of some readers.
  ghost predicate Adds(h: seq<Answer>, g: seq<Answer>, readers: seq<nat>) {
    Delivered(g) == Delivered(h) && Served(g) == Served(h) && Ended(g) == Ended(h) + readers
  }

  lemma OneMoreEnd(h: seq<Answer>, g: seq<Answer>, readers: seq<nat>, x: nat)
    requires Adds(h, g, readers)
    ensures Adds(h, g + [End(x)], readers + [x])
  {
    AnswerNext(g, End(x));
  }

  lemma {:induction false} EndAllAnswers(h: seq<Answer>, waiters: seq<nat>)
    ensures Adds(h, h + EndAll(waiters), waiters)
  {
    if waiters == [] {
      assert h + EndAll(waiters) == h;
    } else {
      var n := |waiters| - 1;
      EndAllAnswers(h, waiters[..n]);
      OneMoreEnd(h, h + EndAll(waiters[..n]), waiters[..n], waiters[n]);
      Regroup(h, EndAll(waiters[..n]), [End(waiters[n])]);
      assert waiters == waiters[..n] + [waiters[n]];
    }
  }

  // ----- Order -----

  // First what came earlier, then what is still there: in one ascending order.
  ghost predicate InOrder(done: seq<nat>, waiting: seq<nat>, n: nat) {
    Increasing(done + waiting) && Below(done + waiting, n)
  }

  lemma OrderArrives(done: seq<nat>, waiting: seq<nat>, n: nat)
    requires InOrder(done, waiting, n)
    ensures InOrder(done, waiting + [n], n + 1) && InOrder(done, waiting, n + 1)
  {
    assert done + (waiting + [n]) == (done + waiting) + [n];
  }

  lemma OrderServes(done: seq<nat>, waiting: seq<nat>, n: nat)
    requires InOrder(done, waiting, n) && waiting != []
    ensures InOrder(done + [waiting[0]], waiting[1..], n)
  {
    assert done + [waiting[0]] + waiting[1..] == done + waiting;
  }

  lemma OrderSkips(done: seq<nat>, waiting: seq<nat>, n: nat)
    requires InOrder(done, waiting, n) && waiting != []
    ensures InOrder(done, waiting[1..], n)
  {
    assert forall i :: |done| <= i < |done + waiting[1..]| ==> (done + waiting[1..])[i] == (done + waiting)[i + 1];
    assert forall i :: 0 <= i < |done| ==> (done + waiting[1..])[i] == (done + waiting)[i];
  }

  lemma OrderEmpties(done: seq<nat>, waiting: seq<nat>, n: nat)
    requires InOrder(done, waiting, n)
    ensures InOrder(done, [], n)
  {
    assert forall i :: 0 <= i < |done| ==> (done + [])[i] == (done + waiting)[i];
  }

  // ----- Accounting -----

  ghost predicate PushesAddUp(q: seq<nat>, done: seq<nat>, d: seq<nat>, c: seq<nat>, n: nat) {
    multiset(done) + multiset(q) + multiset(d) + multiset(c) == multiset(Range(n))
  }

  ghost predicate RequestsAddUp(w: seq<nat>, served: seq<nat>, ended: seq<nat>, n: nat) {
    multiset(served) + multiset(w) + multiset(ended) == multiset(Range(n))
  }

  lemma MultisetSnoc(s: seq<nat>, x: nat)
    ensures multiset(s + [x]) == multiset(s) + multiset{x}
  {
  }

  lemma MultisetHead(s: seq<nat>)
    requires s != []
    ensures multiset(s) == multiset{s[0]} + multiset(s[1..])
  {
    assert s == [s[0]] + s[1..];
  }

  /**
   The queue holds the last pushes without a gap: with drop-oldest, exactly the newest.
   */
  ghost predicate Newest(queue: seq<nat>, pushes: nat) {
    |queue| <= pushes && forall k :: 0 <= k < |queue| ==> queue[k] == pushes - |queue| + k
  }

  ghost predicate ItemsSound(q: seq<nat>, done: seq<nat>, d: seq<nat>, c: seq<nat>, n: nat, cfg: Settings) {
    && |q| <= cfg.maxSize
    && InOrder(done, q, n)
    && PushesAddUp(q, done, d, c, n)
    && (cfg.dropOldest ==> Newest(q, n))
  }

  ghost predicate RequestsSound(w: seq<nat>, served: seq<nat>, ended: seq<nat>, n: nat) {
    InOrder(served, w, n) && RequestsAddUp(w, served, ended, n)
  }

  // ----- Items, step by step -----

  lemma NewestMoves(q: seq<nat>, n: nat)
    requires Newest(q, n)
    ensures Newest(q + [n], n + 1) && (q != [] ==> Newest(q[1..], n) && Newest(q[1..] + [n], n + 1))
  {
  }

  lemma ItemQueued(q: seq<nat>, done: seq<nat>, d: seq<nat>, c: seq<nat>, n: nat, cfg: Settings)
    requires ItemsSound(q, done, d, c, n, cfg) && |q| < cfg.maxSize
    ensures ItemsSound(q + [n], done, d, c, n + 1, cfg)
  {
    OrderArrives(done, q, n);
    MultisetSnoc(q, n);
    if cfg.dropOldest {
      NewestMoves(q, n);
    }
  }

  lemma ItemReplaced(q: seq<nat>, done: seq<nat>, d: seq<nat>, c: seq<nat>, n: nat, cfg: Settings)
    requires ItemsSound(q, done, d, c, n, cfg) && q != []
    ensures ItemsSound(q[1..] + [n], done, d + [q[0]], c, n + 1, cfg)
  {
    OrderSkips(done, q, n);
    OrderArrives(done, q[1..], n);
    MultisetHead(q);
    MultisetSnoc(q[1..], n);
    MultisetSnoc(d, q[0]);
    if cfg.dropOldest {
      NewestMoves(q, n);
    }
  }

  lemma ItemDropped(q: seq<nat>, done: seq<nat>, d: seq<nat>, c: seq<nat>, n: nat, cfg: Settings)
    requires ItemsSound(q, done, d, c, n, cfg) && !cfg.dropOldest
    ensures ItemsSound(q, done, d + [n], c, n + 1, cfg)
  {
    OrderArrives(done, q, n);
    MultisetSnoc(d, n);
  }

  lemma ItemDelivered(q: seq<nat>, done: seq<nat>, d: seq<nat>, c: seq<nat>, n: nat, cfg: Settings)
    requires ItemsSound(q, done, d, c, n, cfg) && q == []
    ensures ItemsSound(q, done + [n], d, c, n + 1, cfg)
  {
    DeliveredAtOnce(done, n);
    MultisetSnoc(done, n);
  }

  lemma ItemTaken(q: seq<nat>, done: seq<nat>, d: seq<nat>, c: seq<nat>, n: nat, cfg: Settings)
    requires ItemsSound(q, done, d, c, n, cfg) && q != []
    ensures ItemsSound(q[1..], done + [q[0]], d, c, n, cfg)
  {
    OrderServes(done, q, n);
    MultisetHead(q);
    MultisetSnoc(done, q[0]);
    if cfg.dropOldest {
      NewestMoves(q, n);
    }
  }

  lemma ItemsCleared(q: seq<nat>, done: seq<nat>, d: seq<nat>, c: seq<nat>, n: nat, cfg: Settings)
    requires ItemsSound(q, done, d, c, n, cfg)
    ensures ItemsSound([], done, d, c + q, n, cfg)
  {
    OrderEmpties(done, q, n);
  }

  lemma DeliveredAtOnce(done: seq<nat>, n: nat)
    requires InOrder(done, [], n)
    ensures InOrder(done + [n], [], n + 1)
  {
    OrderArrives(done, [], n);
    assert [] + [n] == [n] && [n][1..] == [];
    OrderServes(done, [n], n + 1);
  }

  // ----- Requests, step by step -----

  lemma WaiterTakes(w: seq<nat>, served: seq<nat>, ended: seq<nat>, n: nat)
    requires RequestsSound(w, served, ended, n) && w != []
    ensures RequestsSound(w[1..], served + [w[0]], ended, n)
  {
    OrderServes(served, w, n);
    MultisetHead(w);
    MultisetSnoc(served, w[0]);
  }

  lemma RequestTakes(w: seq<nat>, served: seq<nat>, ended: seq<nat>, n: nat)
    requires RequestsSound(w, served, ended, n) && w == []
    ensures RequestsSound(w, served + [n], ended, n + 1)
  {
    DeliveredAtOnce(served, n);
    MultisetSnoc(served, n);
  }

  lemma RequestEnds(w: seq<nat>, served: seq<nat>, ended: seq<nat>, n: nat)
    requires RequestsSound(w, served, ended, n)
    ensures RequestsSound(w, served, ended + [n], n + 1)
  {
    OrderArrives(served, w, n);
    MultisetSnoc(ended, n);
  }

  lemma RequestQueues(w: seq<nat>, served: seq<nat>, ended: seq<nat>, n: nat)
    requires RequestsSound(w, served, ended, n)
    ensures RequestsSound(w + [n], served, ended, n + 1)
  {
    OrderArrives(served, w, n);
    MultisetSnoc(w, n);
  }

  lemma WaitersEnd(w: seq<nat>, served: seq<nat>, ended: seq<nat>, n: nat)
    requires RequestsSound(w, served, ended, n)
    ensures RequestsSound([], served, ended + w, n)
  {
    OrderEmpties(served, w, n);
  }

  // ----- Steps -----

  ghost predicate ItemsHold(s: State, cfg: Settings) {
    ItemsSound(s.queue, s.delivered, s.dropped, s.cleared, s.pushes, cfg)
  }

  ghost predicate RequestsHold(s: State) {
    RequestsSound(s.waiters, s.served, s.ended, s.requests)
  }

  // Requests wait only while the queue is empty and open.
  predicate WaitsHold(s: State) {
    s.waiters != [] ==> s.queue == [] && !s.closed
  }

  lemma FittingKeepsItems(s: State, cfg: Settings)
    requires ItemsHold(s, cfg) && !s.closed && s.waiters == [] && |s.queue| < cfg.maxSize
    ensures ItemsHold(AfterPush(s, cfg), cfg)
  {
    ItemQueued(s.queue, s.delivered, s.dropped, s.cleared, s.pushes, cfg);
  }

  lemma ReplacingKeepsItems(s: State, cfg: Settings)
    requires ItemsHold(s, cfg) && s.queue != []
    ensures ItemsHold(Replaced(s), cfg)
  {
    ItemReplaced(s.queue, s.delivered, s.dropped, s.cleared, s.pushes, cfg);
  }

  lemma DroppingKeepsItems(s: State, cfg: Settings)
    requires ItemsHold(s, cfg) && !s.closed && s.waiters == [] && |s.queue| >= cfg.maxSize && !cfg.dropOldest
    ensures ItemsHold(AfterPush(s, cfg), cfg)
  {
    ItemDropped(s.queue, s.delivered, s.dropped, s.cleared, s.pushes, cfg);
  }

  lemma WaiterKeepsItems(s: State, cfg: Settings)
    requires ItemsHold(s, cfg) && !s.closed && s.waiters != [] && s.queue == []
    ensures ItemsHold(AfterPush(s, cfg), cfg)
  {
    ItemDelivered(s.queue, s.delivered, s.dropped, s.cleared, s.pushes, cfg);
  }

  lemma TakeKeepsItems(s: State, request: Option<nat>, cfg: Settings)
    requires ItemsHold(s, cfg) && s.queue != []
    ensures ItemsHold(Take(s, request), cfg)
  {
    ItemTaken(s.queue, s.delivered, s.dropped, s.cleared, s.pushes, cfg);
  }

  lemma NextKeepsItems(s: State, cfg: Settings)
    requires ItemsHold(s, cfg)
    ensures ItemsHold(AfterNext(s), cfg)
  {
    if s.queue != [] {
      TakeKeepsItems(s, Some(s.requests), cfg);
    }
  }

  lemma StepKeepsItems(s: State, op: Op, cfg: Settings)
    requires ItemsHold(s, cfg) && WaitsHold(s) && cfg.maxSize > 0
    ensures ItemsHold(Step(s, op, cfg), cfg)
  {
    match op
    case Push =>
      if !s.closed && s.waiters != [] {
        WaiterKeepsItems(s, cfg);
      } else if !s.closed && |s.queue| < cfg.maxSize {
        FittingKeepsItems(s, cfg);
      } else if !s.closed && cfg.dropOldest {
        ReplacingKeepsItems(s, cfg);
      } else if !s.closed {
        DroppingKeepsItems(s, cfg);
      }
    case Shift => if s.queue != [] { TakeKeepsItems(s, None, cfg); }
    case Clear => ItemsCleared(s.queue, s.delivered, s.dropped, s.cleared, s.pushes, cfg);
    case Close =>
    case Next => NextKeepsItems(s, cfg);
  }

  lemma EndKeepsRequests(s: State)
    requires RequestsHold(s) && s.queue == [] && s.closed
    ensures RequestsHold(AfterNext(s))
  {
    RequestEnds(s.waiters, s.served, s.ended, s.requests);
  }

  lemma WaitKeepsRequests(s: State)
    requires RequestsHold(s) && s.queue == [] && !s.closed
    ensures RequestsHold(AfterNext(s))
  {
    RequestQueues(s.waiters, s.served, s.ended, s.requests);
  }

  lemma TakeKeepsRequests(s: State)
    requires RequestsHold(s) && s.waiters == [] && s.queue != []
    ensures RequestsHold(AfterNext(s))
  {
    RequestTakes(s.waiters, s.served, s.ended, s.requests);
  }

  lemma StepKeepsRequests(s: State, op: Op, cfg: Settings)
    requires RequestsHold(s) && WaitsHold(s)
    ensures RequestsHold(Step(s, op, cfg))
  {
    match op
    case Push => if !s.closed && s.waiters != [] { WaiterTakes(s.waiters, s.served, s.ended, s.requests); }
    case Shift =>
    case Clear =>
    case Close => WaitersEnd(s.waiters, s.served, s.ended, s.requests);
    case Next =>
      if s.queue != [] {
        TakeKeepsRequests(s);
      } else if s.closed {
        EndKeepsRequests(s);
      } else {
        WaitKeepsRequests(s);
      }
  }

  lemma StepKeepsWaits(s: State, op: Op, cfg: Settings)
    requires WaitsHold(s)
    ensures WaitsHold(Step(s, op, cfg))
  {
  }

  /** Over every run under either strategy, requests wait only while the queue is empty and open. */
  lemma {:induction false} WaitersOnlyWhenEmpty(ops: seq<Op>, cfg: Settings)
    ensures WaitsHold(Run(ops, cfg))
  {
    if ops != [] {
      WaitersOnlyWhenEmpty(ops[..|ops| - 1], cfg);
      StepKeepsWaits(Run(ops[..|ops| - 1], cfg), ops[|ops| - 1], cfg);
    }
  }

  lemma {:induction false} RunKeepsItems(ops: seq<Op>, cfg: Settings)
    requires cfg.maxSize > 0
    ensures ItemsHold(Run(ops, cfg), cfg)
  {
    if ops != [] {
      WaitersOnlyWhenEmpty(ops[..|ops| - 1], cfg);
      RunKeepsItems(ops[..|ops| - 1], cfg);
      StepKeepsItems(Run(ops[..|ops| - 1], cfg), ops[|ops| - 1], cfg);
    }
  }

  lemma {:induction false} RunKeepsRequests(ops: seq<Op>, cfg: Settings)
    ensures RequestsHold(Run(ops, cfg))
  {
    if ops != [] {
      WaitersOnlyWhenEmpty(ops[..|ops| - 1], cfg);
      RunKeepsRequests(ops[..|ops| - 1], cfg);
      StepKeepsRequests(Run(ops[..|ops| - 1], cfg), ops[|ops| - 1], cfg);
    }
  }

  /**
   Over every run under either strategy: items are delivered in the order of their pushes; the queue
   never exceeds its capacity, and with drop-oldest holds exactly the newest pushes; and every push
   made while it was open is delivered, queued, dropped or cleared, once.
   */
  lemma EveryPushIsAccountedFor(ops: seq<Op>, cfg: Settings)
    requires cfg.maxSize > 0
    ensures var s := Run(ops, cfg);
            && |s.queue| <= cfg.maxSize
            && Increasing(s.delivered + s.queue)
            && (cfg.dropOldest ==> Newest(s.queue, s.pushes))
            && multiset(s.delivered) + multiset(s.queue) + multiset(s.dropped) + multiset(s.cleared)
               == multiset(Range(s.pushes))
  {
    RunKeepsItems(ops, cfg);
  }

  /** And requests are served in the order in which they came; each is served, waiting or ended, once. */
  lemma EveryRequestIsAccountedFor(ops: seq<Op>, cfg: Settings)
    ensures var s := Run(ops, cfg);
            && Increasing(s.served + s.waiters)
            && multiset(s.served) + multiset(s.waiters) + multiset(s.ended) == multiset(Range(s.requests))
  {
    RunKeepsRequests(ops, cfg);
  }

  /** The history says so: who was served what, in that order. */
  lemma {:induction false} HistoryAgrees(ops: seq<Op>, cfg: Settings)
    ensures var s := Run(ops, cfg);
            Delivered(s.history) == s.delivered && Served(s.history) == s.served && Ended(s.history) == s.ended
  {
    if ops != [] {
      HistoryAgrees(ops[..|ops| - 1], cfg);
      StepAgrees(Run(ops[..|ops| - 1], cfg), ops[|ops| - 1], cfg);
    }
  }

  lemma StepAgrees(s: State, op: Op, cfg: Settings)
    requires Delivered(s.history) == s.delivered && Served(s.history) == s.served && Ended(s.history) == s.ended
    ensures var t := Step(s, op, cfg);
            Delivered(t.history) == t.delivered && Served(t.history) == t.served && Ended(t.history) == t.ended
  {
    assert s.delivered + [] == s.delivered && s.served + [] == s.served && s.ended + [] == s.ended;
    match op
    case Push => if s.waiters != [] { AnswerNext(s.history, Item(Some(s.waiters[0]), s.pushes)); }
    case Shift => if s.queue != [] { AnswerNext(s.history, Item(None, s.queue[0])); }
    case Clear =>
    case Close => EndAllAnswers(s.history, s.waiters);
    case Next =>
      if s.queue != [] {
        AnswerNext(s.history, Item(Some(s.requests), s.queue[0]));
      } else {
        AnswerNext(s.history, End(s.requests));
      }
  }
}
