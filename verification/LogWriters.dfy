/**
 Every data line of every log is written by some call, and whether it is attributed to that call is
 decided by what the call and its callees have printed.
 */
module LogWriters {
  import opened Prelude
  import opened LogStacks
  import opened LogChains
  import opened LogMessages
  import opened LogEntries
  import opened LogShifts
  import opened LogSelfCalls

  // How a call is opened.
  ghost predicate Opens(step: (Stack, Line) -> Stack, loop: Loop) {
    forall s: Stack, p: nat, d: nat :: step(s, Invoke(p, d)) == Push(loop, s, Program(p), d)
  }

  lemma PushHeight(loop: Loop, s: Stack, y: Id, d: nat)
    requires d > 0
    ensures var r := Push(loop, s, y, d); 0 < |r| <= d && r[|r| - 1] == Some(y) && (loop == Loose ==> |r| == d)
  {
    if d - 1 > |s| {
      HolesAreEmpty(d - 1 - |s|);
    }
  }

  lemma IntoOpen(step: (Stack, Line) -> Stack, loop: Loop, s: Stack, o: Open, d: nat) returns (inside: Stack)
    requires o.In? && d > 0 && Opens(step, loop)
    ensures 0 < |inside| <= d && inside[|inside| - 1] == Some(Program(o.program)) && (loop == Loose ==> |inside| == d)
    ensures Fold(step, s, Unfinished(o, d)) == Fold(step, inside, Unfinished(o.inner, d + 1))
  {
    var before := Fold(step, s, Render(o.before, d));
    var more := Unfinished(o.inner, d + 1);
    inside := Push(loop, before, Program(o.program), d);
    PushHeight(loop, before, Program(o.program), d);
    FoldBoth(step, s, Render(o.before, d), [Invoke(o.program, d)] + more);
    IntoCall(step, before, Invoke(o.program, d), inside, more);
  }

  // The innermost open call: its program, its depth, and what it has printed itself.
  function Innermost(o: Open): nat
    requires o.In?
  {
    if o.inner.In? then Innermost(o.inner) else o.program
  }

  function Depth(o: Open): nat {
    if o.In? then 1 + Depth(o.inner) else 0
  }

  function Printed(o: Open): Body {
    match o
    case Idle(own) => own
    case In(_, _, inner) => Printed(inner)
  }

  lemma {:induction false} InnermostWrites(o: Open, owner: Option<Id>)
    requires o.In?
    ensures Writer(o, owner) == Some(Program(Innermost(o))) && Depth(o) >= 1
  {
    if o.inner.In? {
      InnermostWrites(o.inner, Some(Program(o.program)));
    }
  }

  // After these lines the stack is what `lines` make of a stack with the call on top.
  ghost predicate ReachedBy(step: (Stack, Line) -> Stack, s: Stack, lines: seq<Line>, outer: Stack, w: nat, more: seq<Line>) {
    Fold(step, s, lines) == Fold(step, outer + [Some(Program(w))], more)
  }

  lemma InnermostHere(step: (Stack, Line) -> Stack, s: Stack, o: Open, d: nat, inside: Stack) returns (outer: Stack)
    requires o.In? && o.inner.Idle? && 0 < |inside| && inside[|inside| - 1] == Some(Program(o.program))
    requires Fold(step, s, Unfinished(o, d)) == Fold(step, inside, Unfinished(o.inner, d + 1))
    ensures outer == inside[..|inside| - 1] && ReachedBy(step, s, Unfinished(o, d), outer, o.program, Render(o.inner.own, d + 1))
  {
    outer := inside[..|inside| - 1];
    assert outer + [Some(Program(o.program))] == inside;
  }

  // `e` is one more than the depth of the innermost call.
  lemma {:induction false} WriterIsACall(step: (Stack, Line) -> Stack, loop: Loop, s: Stack, o: Open, d: nat, e: nat)
    returns (outer: Stack)
    requires o.In? && d > 0 && Opens(step, loop) && e == d + Depth(o)
    ensures |outer| + 1 < e && (loop == Loose ==> |outer| + 2 == e)
    ensures ReachedBy(step, s, Unfinished(o, d), outer, Innermost(o), Render(Printed(o), e))
    decreases o
  {
    var inside := IntoOpen(step, loop, s, o, d);
    if o.inner.Idle? {
      outer := InnermostHere(step, s, o, d, inside);
    } else {
      outer := WriterIsACall(step, loop, inside, o.inner, d + 1, e);
    }
  }

  lemma ReachedIsRight(loop: Loop, lines: seq<Line>, outer: Stack, w: nat, b: Body, d: nat)
    requires ReachedBy(Steps(loop), [], lines, outer, w, Render(b, d + 1))
    ensures Top(After(loop, [], lines)) == Some(Program(w)) <==> Right(loop, outer, w, b, d)
  {
  }

  lemma WriterBegan(loop: Loop, o: Open) returns (outer: Stack)
    requires o.In?
    ensures |outer| < Depth(o) && (loop == Loose ==> |outer| + 1 == Depth(o))
    ensures Top(After(loop, [], Unfinished(o, 1))) == Writer(o, None) <==> Right(loop, outer, Innermost(o), Printed(o), Depth(o))
  {
    InnermostWrites(o, None);
    outer := WriterIsACall(Steps(loop), loop, [], o, 1, Depth(o) + 1);
    ReachedIsRight(loop, Unfinished(o, 1), outer, Innermost(o), Printed(o), Depth(o));
  }

  /**
   Over every log, whatever was printed: the next data line is written by the innermost open call, which
   began on some stack; and it is attributed rightly if and only if what the call and its callees have
   printed since leaves of the stack what it was up to an entry of the writer's program.
   */
  lemma EveryWriterIsACall(loop: Loop, o: Open) returns (outer: Stack)
    requires o.In?
    ensures |outer| < Depth(o) && (loop == Loose ==> |outer| + 1 == Depth(o))
    ensures Top(After(loop, [], Unfinished(o, 1))) == Writer(o, None) <==> Right(loop, outer, Innermost(o), Printed(o), Depth(o))
    ensures Top(After(loop, [], Unfinished(o, 1))) == Writer(o, None) <==>
            LeftAtSome(loop, outer + [Some(Program(Innermost(o)))], Innermost(o), Printed(o), Depth(o))
  {
    outer := WriterBegan(loop, o);
    RightExactly(loop, outer, Innermost(o), Printed(o), Depth(o));
  }

  // ----- Logs that the runtime permits -----

  // The log when the innermost call began.
  function Began(o: Open): Open {
    match o
    case Idle(_) => Idle(End)
    case In(before, p, inner) => In(before, p, Began(inner))
  }

  lemma {:induction false} BeganThenPrinted(o: Open, d: nat, e: nat)
    requires e == d + Depth(o)
    ensures Unfinished(o, d) == Unfinished(Began(o), d) + Render(Printed(o), e)
    decreases o
  {
    match o
    case Idle(own) => assert [] + Render(own, d) == Render(own, d);
    case In(before, p, inner) =>
      BeganThenPrinted(inner, d + 1, e);
      Regroup([Invoke(p, d)], Unfinished(Began(inner), d + 1), Render(Printed(o), e));
      Regroup(Render(before, d), [Invoke(p, d)] + Unfinished(Began(inner), d + 1), Render(Printed(o), e));
  }

  lemma {:induction false} BeganOnChain(o: Open)
    ensures Chain(Began(o)) == Chain(o) && |Chain(o)| == Depth(o)
  {
    if o.In? {
      BeganOnChain(o.inner);
    }
  }

  predicate PermittedSoFar(o: Open, c: Stack) {
    match o
    case Idle(own) => Permitted(own, c)
    case In(before, p, inner) => Permitted(before, c) && MayBeCalled(c, p) && PermittedSoFar(inner, c + [Some(Program(p))])
  }

  lemma {:induction false} ChainIsPermitted(o: Open, c: Stack)
    requires PermittedChain(c) && PermittedSoFar(o, c)
    ensures PermittedChain(c + Chain(o)) && Permitted(Printed(o), c + Chain(o))
    decreases o
  {
    match o
    case Idle(_) => assert c + [] == c;
    case In(_, p, inner) =>
      assert (c + [Some(Program(p))])[..|c|] == c;
      ChainIsPermitted(inner, c + [Some(Program(p))]);
      AssociateStack(c, p, Chain(inner));
  }

  lemma AfterBoth(loop: Loop, a: seq<Line>, b: seq<Line>, mid: Stack)
    requires After(loop, [], a) == mid
    ensures After(loop, [], a + b) == After(loop, mid, b)
  {
    FoldBoth(Steps(loop), [], a, b);
  }

  lemma ChainThenPrinted(loop: Loop, o: Open, e: nat)
    requires NoneAnnounces(loop, Unfinished(Began(o), 1)) && e == Depth(o) + 1
    ensures After(loop, [], Unfinished(o, 1)) == Leaves(loop, Chain(o), Printed(o), e)
  {
    StackIsChain(loop, Began(o));
    BeganOnChain(o);
    AfterBoth(loop, Unfinished(Began(o), 1), Render(Printed(o), e), Chain(o));
    BeganThenPrinted(o, 1, e);
    LeavesIsAfter(loop, Chain(o), Printed(o), e);
  }

  lemma TopOfChain(o: Open)
    requires o.In?
    ensures Chain(o) != [] && Top(Chain(o)) == Some(Program(Innermost(o))) == Writer(o, None)
  {
    InnermostWrites(o, None);
    ChainEndsInWriter(o, []);
    OnNothing(Chain(o));
    BeganOnChain(o);
  }

  /**
   Over every log in which a running program is called by itself only, and in which no message was taken
   for an invoke before the writer began: its next data line is attributed to it if and only if no message
   of its own or its callees is taken for an invoke at the depth of the calls below its own in a row, and,
   read by themselves with depths counted from there, they leave its program on top.
   */
  lemma DataLineExactly(loop: Loop, o: Open)
    requires o.In? && PermittedSoFar(o, []) && NoneAnnounces(loop, Unfinished(Began(o), 1))
    ensures |Chain(o)| == Depth(o) && InARow(Chain(o), Innermost(o)) > 0
    ensures Top(After(loop, [], Unfinished(o, 1))) == Writer(o, None) <==>
            RowStays(loop, |Chain(o)|, Innermost(o), InARow(Chain(o), Innermost(o)), Printed(o))
  {
    TopOfChain(o);
    BeganOnChain(o);
    ChainThenPrinted(loop, o, |Chain(o)| + 1);
    ChainIsPermittedAlone(o);
    OwnRowDecides(loop, Chain(o), Innermost(o), Printed(o));
  }

  lemma ChainIsPermittedAlone(o: Open)
    requires PermittedSoFar(o, [])
    ensures PermittedChain(Chain(o)) && Permitted(Printed(o), Chain(o))
  {
    ChainIsPermitted(o, []);
    OnNothing(Chain(o));
  }
}
