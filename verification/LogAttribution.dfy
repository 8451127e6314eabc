/**
 What the two loops answer for a log: the program that each line is parsed under, and whether a create
 was logged by a program. Both answers are compared with who printed the line.
 */
module LogAttribution {
  import opened Prelude
  import opened LogStacks
  import opened LogChains
  import opened LogEntries
  import opened LogSelfCalls
  import opened LogWriters

  // The stack while a line is parsed: an invoke has been pushed, an end has not been taken off yet.
  function While(stack: Stack, line: Line): Stack {
    match line
    case Invoke(p, depth) => Push(Loose, stack, Program(p), depth)
    case Message(r) => (match r.invoke case Some(a) => Push(Loose, stack, Words(a.text), a.depth) case None => stack)
    case _ => stack
  }

  // The program a line is parsed under.
  function Attributed(lines: seq<Line>, i: nat): Option<Id>
    requires i < |lines|
  {
    Top(While(After(Loose, [], lines[..i]), lines[i]))
  }

  // One turn of the loose loop: push, parse, take off.
  method Parse(stack: Stack, line: Line) returns (program: Option<Id>, next: Stack)
    ensures program == Top(While(stack, line)) && next == Step(Loose, stack, line)
  {
    next := While(stack, line);
    program := Top(next);
    match line {
      case Complete(p) => next := Shrink(next, Program(p));
      case Message(r) =>
        if r.ends.Some? {
          next := Shrink(next, Words(r.ends.value));
        }
      case _ =>
    }
  }

  // The values of `f` at 0, 1, ..., n - 1.
  function Collect<T>(n: nat, f: nat -> T): (r: seq<T>)
    ensures |r| == n
  {
    if n == 0 then [] else Collect(n - 1, f) + [f(n - 1)]
  }

  lemma {:induction false} CollectAt<T>(n: nat, f: nat -> T, i: nat)
    requires i < n
    ensures Collect(n, f)[i] == f(i)
  {
    if i < n - 1 {
      CollectAt(n - 1, f, i);
    }
  }

  // ----- Line by line, over every log -----

  // What a line is parsed under, when `before` is on top of the stack as it begins.
  function Expected(line: Line, before: Option<Id>): Option<Id> {
    match line
    case Invoke(p, _) => Some(Program(p))
    case Complete(_) => before
    case Data(_, _) => before
    case Message(r) => if r.invoke.Some? then Some(Words(r.invoke.value.text)) else before
  }

  /** Over every log: an invoke, or what is taken for one, names itself; all else is under what was on top. */
  lemma AttributedIs(lines: seq<Line>, i: nat)
    requires i < |lines|
    ensures Attributed(lines, i) == Expected(lines[i], Top(After(Loose, [], lines[..i])))
  {
    var stack := After(Loose, [], lines[..i]);
    match lines[i]
    case Invoke(p, depth) => PushAddsOnly(Loose, stack, Program(p), depth);
    case Message(r) => if r.invoke.Some? { PushAddsOnly(Loose, stack, Words(r.invoke.value.text), r.invoke.value.depth); }
    case _ =>
  }

  // ----- Who prints a line of a forest of calls -----

  lemma {:induction false} WholeIsIdle(b: Body)
    ensures Truncate(b, Lines(b)).Idle?
  {
    match b
    case End =>
    case Say(_, _, rest) => WholeIsIdle(rest);
    case Print(_, rest) => WholeIsIdle(rest);
    case Sub(_, _, rest) => WholeIsIdle(rest);
  }

  lemma LineOfCall(p: nat, body: seq<Line>, rest: seq<Line>, d: nat, i: nat)
    requires i < |RenderCall(p, body, d) + rest|
    ensures (RenderCall(p, body, d) + rest)[i] ==
            if i == 0 then Invoke(p, d) else if i <= |body| then body[i - 1]
            else if i == |body| + 1 then Complete(p) else rest[i - |body| - 2]
  {
  }

  lemma EarlierWriter(first: Body, o: Open, owner: Option<Id>)
    ensures Writer(Earlier(first, o), owner) == Writer(o, owner)
  {
  }

  // Line `i`, if it ends a call, ends the innermost one.
  ghost predicate EndsWriters(b: Body, d: nat, i: nat, owner: Option<Id>)
    requires i < Lines(b)
  {
    |Render(b, d)| == Lines(b) && (Render(b, d)[i].Complete? ==> Writer(Truncate(b, i), owner) == Some(Program(Render(b, d)[i].program)))
  }

  lemma EndOfInner(p: nat, inner: Body, rest: Body, d: nat, i: nat, owner: Option<Id>)
    requires 0 < i <= Lines(inner) && EndsWriters(inner, d + 1, i - 1, Some(Program(p)))
    ensures EndsWriters(Sub(p, inner, rest), d, i, owner)
  {
    RenderLength(rest, d);
    LineOfCall(p, Render(inner, d + 1), Render(rest, d), d, i);
  }

  lemma EndOfCall(p: nat, inner: Body, rest: Body, d: nat, owner: Option<Id>)
    ensures EndsWriters(Sub(p, inner, rest), d, Lines(inner) + 1, owner)
  {
    RenderLength(inner, d + 1);
    RenderLength(rest, d);
    LineOfCall(p, Render(inner, d + 1), Render(rest, d), d, Lines(inner) + 1);
    WholeIsIdle(inner);
  }

  lemma EndOfLater(p: nat, inner: Body, rest: Body, d: nat, i: nat, owner: Option<Id>)
    requires Lines(inner) + 1 < i < Lines(Sub(p, inner, rest)) && EndsWriters(rest, d, i - 2 - Lines(inner), owner)
    ensures EndsWriters(Sub(p, inner, rest), d, i, owner)
  {
    RenderLength(inner, d + 1);
    LineOfCall(p, Render(inner, d + 1), Render(rest, d), d, i);
    EarlierWriter(Sub(p, inner, End), Truncate(rest, i - 2 - Lines(inner)), owner);
  }

  lemma {:induction false} EndIsWriters(b: Body, d: nat, i: nat, owner: Option<Id>)
    requires i < Lines(b)
    ensures EndsWriters(b, d, i, owner)
    decreases b
  {
    RenderLength(b, d);
    if i > 0 {
      match b
      case Say(x, c, rest) =>
        EndIsWriters(rest, d, i - 1, owner);
        EarlierWriter(Say(x, c, End), Truncate(rest, i - 1), owner);
      case Print(r, rest) =>
        EndIsWriters(rest, d, i - 1, owner);
        EarlierWriter(Print(r, End), Truncate(rest, i - 1), owner);
      case Sub(p, inner, rest) =>
        if i <= Lines(inner) {
          EndIsWriters(inner, d + 1, i - 1, Some(Program(p)));
          EndOfInner(p, inner, rest, d, i, owner);
        } else if i == Lines(inner) + 1 {
          EndOfCall(p, inner, rest, d, owner);
        } else {
          EndIsWriters(rest, d, i - 2 - Lines(inner), owner);
          EndOfLater(p, inner, rest, d, i, owner);
        }
    }
  }

  // Who line `i` belongs to: the program it invokes, or else the one that was running.
  function Owner(b: Body, i: nat): Option<Id>
    requires i < Lines(b) && |Render(b, 1)| == Lines(b)
  {
    match Render(b, 1)[i]
    case Invoke(p, _) => Some(Program(p))
    case Complete(p) => Some(Program(p))
    case _ => Writer(Truncate(b, i), None)
  }

  /**
   For every forest of calls: as long as no message was taken for an invoke, a line that is not itself such
   a message is parsed under the program it belongs to: a data line or message under its writer, and the
   first and the last line of a call under the program that is called.
   */
  lemma AttributedToOwner(b: Body, i: nat)
    requires i < Lines(b) && |Render(b, 1)| == Lines(b)
    requires NoneAnnounces(Loose, Render(b, 1)[..i]) && !Announces(Loose, Render(b, 1)[i])
    ensures Attributed(Render(b, 1), i) == Owner(b, i)
  {
    AttributedIs(Render(b, 1), i);
    TruncateIsPrefix(b, 1, i);
    DataIsAttributed(Loose, Truncate(b, i));
    EndIsWriters(b, 1, i, None);
  }

  /**
   And over every log, whatever was printed: a data line is parsed under its writer if and only if what the
   writer and its callees have printed leaves of the stack what it was up to an entry of the writer's program.
   */
  lemma AttributedExactly(b: Body, i: nat) returns (outer: Stack)
    requires i < Lines(b) && |Render(b, 1)| == Lines(b) && Render(b, 1)[i].Data? && Truncate(b, i).In?
    ensures var o := Truncate(b, i);
            && |outer| + 1 == Depth(o)
            && (Attributed(Render(b, 1), i) == Owner(b, i) <==>
                LeftAtSome(Loose, outer + [Some(Program(Innermost(o)))], Innermost(o), Printed(o), Depth(o)))
  {
    AttributedIs(Render(b, 1), i);
    TruncateIsPrefix(b, 1, i);
    outer := EveryWriterIsACall(Loose, Truncate(b, i));
  }

  /** Where the runtime's rule is kept and no message misled the loop before the writer began: in terms of lines. */
  lemma AttributedByLines(b: Body, i: nat)
    requires i < Lines(b) && |Render(b, 1)| == Lines(b) && Render(b, 1)[i].Data? && Truncate(b, i).In?
    requires PermittedSoFar(Truncate(b, i), []) && NoneAnnounces(Loose, Unfinished(Began(Truncate(b, i)), 1))
    ensures var o := Truncate(b, i);
            && |Chain(o)| == Depth(o)
            && (Attributed(Render(b, 1), i) == Owner(b, i) <==>
                RowStays(Loose, |Chain(o)|, Innermost(o), InARow(Chain(o), Innermost(o)), Printed(o)))
  {
    AttributedIs(Render(b, 1), i);
    TruncateIsPrefix(b, 1, i);
    DataLineExactly(Loose, Truncate(b, i));
  }

  /** The same for creates: one that `pump` logs is detected if and only if the condition holds for the strict loop. */
  lemma CreatesByLines(b: Body, i: nat, pump: nat)
    requires i < Lines(b) && |Render(b, 1)| == Lines(b) && Render(b, 1)[i].Data? && Render(b, 1)[i].creates && Truncate(b, i).In?
    requires PermittedSoFar(Truncate(b, i), []) && NoneAnnounces(Strict, Unfinished(Began(Truncate(b, i)), 1))
    requires Innermost(Truncate(b, i)) == pump
    ensures var o := Truncate(b, i);
            && |Chain(o)| == Depth(o)
            && (CreatesAt(Render(b, 1), i, pump) <==> RowStays(Strict, |Chain(o)|, pump, InARow(Chain(o), pump), Printed(o)))
  {
    TruncateIsPrefix(b, 1, i);
    InnermostWrites(Truncate(b, i), None);
    DataLineExactly(Strict, Truncate(b, i));
  }

  // ----- The loops -----

  /** The programs the lines of a log are parsed under. */
  method Attribute(lines: seq<Line>) returns (programs: seq<Option<Id>>)
    ensures |programs| == |lines|
    ensures forall i :: 0 <= i < |lines| ==> programs[i] == Attributed(lines, i)
    ensures forall b: Body, i: nat :: IsLog(lines, b) && Unmisled(Loose, lines, i) ==> programs[i] == Owner(b, i)
  {
    ghost var f := (i: nat) => if i < |lines| then Attributed(lines, i) else None;
    var stack: Stack := [];
    programs := [];
    for n := 0 to |lines|
      invariant stack == After(Loose, [], lines[..n]) && programs == Collect(n, f)
    {
      AfterNext(Loose, lines, n);
      var program, next := Parse(stack, lines[n]);
      programs := programs + [program];
      stack := next;
    }
    forall i | 0 <= i < |lines|
      ensures programs[i] == Attributed(lines, i)
    {
      CollectAt(|lines|, f, i);
      assert programs[i] == f(i);
    }
    forall b: Body, i: nat | IsLog(lines, b) && Unmisled(Loose, lines, i)
      ensures programs[i] == Owner(b, i)
    {
      AttributedToOwner(b, i);
    }
  }

  // The lines are the log of a forest of calls.
  predicate IsLog(lines: seq<Line>, b: Body) {
    lines == Render(b, 1) && |lines| == Lines(b)
  }

  // No message up to line `i`, itself included, is taken for an invoke.
  ghost predicate Unmisled(loop: Loop, lines: seq<Line>, i: nat) {
    i < |lines| && NoneAnnounces(loop, lines[..i]) && !Announces(loop, lines[i])
  }

  // Line `i` is a create that `pump` itself logs.
  predicate LogsCreate(b: Body, i: nat, pump: nat)
    requires i < Lines(b) && |Render(b, 1)| == Lines(b)
  {
    Render(b, 1)[i].Data? && Render(b, 1)[i].creates && Writer(Truncate(b, i), None) == Some(Program(pump))
  }

  ghost predicate FindsCreate(lines: seq<Line>, pump: nat) {
    exists i :: 0 <= i < |lines| && CreatesAt(lines, i, pump)
  }

  ghost predicate HasCreate(b: Body, pump: nat)
    requires |Render(b, 1)| == Lines(b)
  {
    exists i :: 0 <= i < Lines(b) && LogsCreate(b, i, pump)
  }

  lemma CreateIsTrue(lines: seq<Line>, b: Body, i: nat, pump: nat)
    requires IsLog(lines, b) && NoneAnnounces(Strict, lines) && i < |lines|
    ensures CreatesAt(lines, i, pump) <==> LogsCreate(b, i, pump)
  {
    assert lines == lines[..i] + lines[i..];
    NoneAnnouncesSum(Strict, lines[..i], lines[i..]);
    CreatesAreTrue(b, i, pump);
  }

  lemma CreatesAreLogged(lines: seq<Line>, b: Body, pump: nat)
    requires IsLog(lines, b) && NoneAnnounces(Strict, lines)
    ensures FindsCreate(lines, pump) <==> HasCreate(b, pump)
  {
    forall i | 0 <= i < |lines|
      ensures CreatesAt(lines, i, pump) <==> LogsCreate(b, i, pump)
    {
      CreateIsTrue(lines, b, i, pump);
    }
  }

  /**
   True exactly if a create is logged while the program on top of the strict stack is `pump`; for the log of
   a forest of calls, none of whose messages is taken for an invoke, exactly if `pump` itself logged one.
   */
  method DetectCreate(lines: seq<Line>, pump: nat) returns (found: bool)
    ensures found <==> exists i :: 0 <= i < |lines| && CreatesAt(lines, i, pump)
    ensures forall b: Body :: IsLog(lines, b) && NoneAnnounces(Strict, lines) ==> (found <==> HasCreate(b, pump))
  {
    found := FindCreate(lines, pump);
    forall b: Body | IsLog(lines, b) && NoneAnnounces(Strict, lines)
      ensures FindsCreate(lines, pump) <==> HasCreate(b, pump)
    {
      CreatesAreLogged(lines, b, pump);
    }
  }

  method FindCreate(lines: seq<Line>, pump: nat) returns (found: bool)
    ensures found <==> FindsCreate(lines, pump)
  {
    var stack: Stack := [];
    for n := 0 to |lines|
      invariant stack == After(Strict, [], lines[..n])
      invariant forall i :: 0 <= i < n ==> !CreatesAt(lines, i, pump)
    {
      AfterNext(Strict, lines, n);
      if lines[n].Data? && lines[n].creates && Top(stack) == Some(Program(pump)) {
        assert CreatesAt(lines, n, pump);
        return true;
      }
      stack := Follow(stack, lines[n]);
    }
    found := false;
  }
}
