/** When a queue hands out an item, loses one, or sends a reader away: the conditions for each, over every run. */
module QueueChanges {
  import opened Prelude
  import opened QueueSpec
  import opened QueueProofs

  // A push that finds neither a waiting reader nor room.
  predicate FindsNoPlace(s: State, cfg: Settings) {
    !s.closed && s.waiters == [] && |s.queue| == cfg.maxSize
  }

  lemma NextState(ops: seq<Op>, op: Op, cfg: Settings)
    ensures Run(ops + [op], cfg) == Step(Run(ops, cfg), op, cfg)
  {
    assert (ops + [op])[..|ops|] == ops;
  }

  /**
   For every run and one more operation: an item is dropped if and only if a push finds neither a reader nor
   room, and it is the oldest or the new one as configured; items are cleared only by clearing.
   */
  lemma LosesExactly(ops: seq<Op>, op: Op, cfg: Settings)
    requires cfg.maxSize > 0
    ensures var s, t := Run(ops, cfg), Run(ops + [op], cfg);
            && t.dropped == (if op == Push && FindsNoPlace(s, cfg)
                             then s.dropped + [if cfg.dropOldest then s.queue[0] else s.pushes] else s.dropped)
            && t.cleared == (if op == Clear then s.cleared + s.queue else s.cleared)
            && (op == Clear ==> t.queue == [])
  {
    NextState(ops, op, cfg);
    RunKeepsItems(ops, cfg);
    assert Run(ops, cfg).cleared + [] == Run(ops, cfg).cleared;
  }

  /**
   An item is handed out if and only if a push meets a reader or a request meets an item, and it is the oldest; a
   reader is told of the end if and only if the queue closes on it, or it asks a closed and empty one.
   */
  lemma AnswersExactly(ops: seq<Op>, op: Op, cfg: Settings)
    requires cfg.maxSize > 0
    ensures var s, t := Run(ops, cfg), Run(ops + [op], cfg);
            var meets := (op == Push && !s.closed && s.waiters != []) || ((op == Shift || op == Next) && s.queue != []);
            && |t.delivered| == |s.delivered| + (if meets then 1 else 0)
            && (meets ==> t.delivered[|s.delivered|] == (s.queue + [s.pushes])[0])
            && t.ended == (if op == Close then s.ended + s.waiters
                           else if op == Next && s.closed && s.queue == [] then s.ended + [s.requests] else s.ended)
            && (t.closed <==> s.closed || op == Close)
            && (t.waiters != [] ==> !t.closed)
  {
    NextState(ops, op, cfg);
    WaitersOnlyWhenEmpty(ops, cfg);
    WaitersOnlyWhenEmpty(ops + [op], cfg);
    assert Run(ops, cfg).ended + [] == Run(ops, cfg).ended;
  }

  /** A push made while the queue is open is reported as accepted if and only if nothing is dropped for it. */
  lemma AcceptsExactly(ops: seq<Op>, cfg: Settings)
    requires cfg.maxSize > 0
    ensures var s, t := Run(ops, cfg), Run(ops + [Push], cfg);
            && (Accepts(s, cfg) <==> !s.closed && t.dropped == s.dropped)
            && t.pushes == s.pushes + (if s.closed then 0 else 1)
  {
    LosesExactly(ops, Push, cfg);
    NextState(ops, Push, cfg);
    RunKeepsItems(ops, cfg);
  }
}
