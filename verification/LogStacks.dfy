/**
 The active-program stack rebuilt from a transaction's logs. Both loops of the parser are modelled;
 they differ in what an invoke line does when it claims a depth the stack has not reached, and in
 how exactly a line must have the form of the runtime's own before they act on it.
 */
module LogStacks {
  import opened Prelude

  // A program's address, or words of a message that were taken for one. Words are no address.
  datatype Id = Program(key: nat) | Words(text: nat)

  // The strict loop never grows the stack by more than one; the loose one pads it with holes.
  datatype Loop = Strict | Loose

  datatype Announcement = Announcement(text: nat, depth: nat)

  // What a message reads as: an invoke, an end, both or neither; and whether it reads so to the letter.
  // The words before an invoke and the words before an end are never the same, and depths begin at 1.
  datatype Heard = Heard(invoke: Option<Announcement>, exactInvoke: bool, ends: Option<nat>, exactEnd: bool)

  type Reading = r: Heard | r.invoke.Some? ==> r.ends != Some(r.invoke.value.text) && r.invoke.value.depth > 0
    witness Heard(None, false, None, false)

  // A line that announces a call, one that ends a call, a data line (`creates` marks a create event),
  // or a message printed by a program.
  datatype Line =
    | Invoke(program: nat, depth: nat)
    | Complete(program: nat)
    | Data(payload: nat, creates: bool)
    | Message(reading: Reading)

  type Stack = seq<Option<Id>>

  function Announced(loop: Loop, r: Reading): Option<Announcement> {
    if loop == Loose || r.exactInvoke then r.invoke else None
  }

  // The strict loop looks no further once it has taken a line for an invoke.
  function Ended(loop: Loop, r: Reading): Option<nat> {
    if loop == Loose || (r.exactEnd && Announced(loop, r).None?) then r.ends else None
  }

  predicate Announces(loop: Loop, line: Line) {
    line.Message? && Announced(loop, line.reading).Some?
  }

  function Holes(n: nat): Stack {
    if n == 0 then [] else Holes(n - 1) + [None]
  }

  function Resize(loop: Loop, stack: Stack, n: nat): Stack {
    if n <= |stack| then stack[..n]
    else if loop == Strict then stack
    else stack + Holes(n - |stack|)
  }

  // The last place of a program on the stack.
  function LastIndexOf(stack: Stack, p: Id): (r: Option<nat>)
    ensures r.Some? ==> r.value < |stack|
  {
    if stack == [] then None
    else if stack[|stack| - 1] == Some(p) then Some(|stack| - 1)
    else LastIndexOf(stack[..|stack| - 1], p)
  }

  lemma {:induction false} LastIndexIsLast(stack: Stack, p: Id)
    ensures var r := LastIndexOf(stack, p);
            && (r.Some? ==> stack[r.value] == Some(p) && forall j :: r.value < j < |stack| ==> stack[j] != Some(p))
            && (r.None? ==> forall j :: 0 <= j < |stack| ==> stack[j] != Some(p))
  {
    if stack != [] && stack[|stack| - 1] != Some(p) {
      LastIndexIsLast(stack[..|stack| - 1], p);
    }
  }

  function Push(loop: Loop, stack: Stack, p: Id, depth: nat): Stack {
    Resize(loop, stack, if depth > 0 then depth - 1 else 0) + [Some(p)]
  }

  function Cut(stack: Stack, p: Id): Stack {
    match LastIndexOf(stack, p)
    case Some(i) => stack[..i]
    case None => stack
  }

  function Hear(loop: Loop, stack: Stack, r: Reading): Stack {
    var pushed := match Announced(loop, r)
                  case Some(a) => Push(loop, stack, Words(a.text), a.depth)
                  case None => stack;
    match Ended(loop, r)
    case Some(t) => Cut(pushed, Words(t))
    case None => pushed
  }

  function Step(loop: Loop, stack: Stack, line: Line): Stack {
    match line
    case Invoke(p, depth) => Push(loop, stack, Program(p), depth)
    case Complete(p) => Cut(stack, Program(p))
    case Data(_, _) => stack
    case Message(r) => Hear(loop, stack, r)
  }

  // What a machine with this step makes of some lines.
  function Fold(step: (Stack, Line) -> Stack, stack: Stack, lines: seq<Line>): Stack {
    if lines == [] then stack else step(Fold(step, stack, lines[..|lines| - 1]), lines[|lines| - 1])
  }

  function Steps(loop: Loop): (Stack, Line) -> Stack {
    (stack, line) => Step(loop, stack, line)
  }

  function After(loop: Loop, stack: Stack, lines: seq<Line>): Stack {
    Fold(Steps(loop), stack, lines)
  }

  function Top(stack: Stack): Option<Id> {
    if stack == [] then None else stack[|stack| - 1]
  }

  lemma {:induction false} FoldBoth(step: (Stack, Line) -> Stack, stack: Stack, a: seq<Line>, b: seq<Line>)
    ensures Fold(step, stack, a + b) == Fold(step, Fold(step, stack, a), b)
  {
    if b == [] {
      assert a + b == a;
    } else {
      FoldBoth(step, stack, a, b[..|b| - 1]);
      assert (a + b)[..|a + b| - 1] == a + b[..|b| - 1];
    }
  }

  lemma FoldOne(step: (Stack, Line) -> Stack, stack: Stack, line: Line)
    ensures Fold(step, stack, [line]) == step(stack, line)
  {
    assert [line][..0] == [];
  }

  lemma FoldNext(step: (Stack, Line) -> Stack, stack: Stack, lines: seq<Line>, n: nat)
    requires n < |lines|
    ensures Fold(step, stack, lines[..n + 1]) == step(Fold(step, stack, lines[..n]), lines[n])
  {
    assert lines[..n + 1][..n] == lines[..n];
  }

  lemma AfterNext(loop: Loop, lines: seq<Line>, n: nat)
    requires n < |lines|
    ensures After(loop, [], lines[..n + 1]) == Step(loop, After(loop, [], lines[..n]), lines[n])
  {
    FoldNext(Steps(loop), [], lines, n);
  }

  // ----- Trees of program calls -----

  datatype Body =
    | End
    | Say(payload: nat, creates: bool, rest: Body)
    | Print(reading: Reading, rest: Body)
    | Sub(program: nat, inner: Body, rest: Body)

  // The log of a call tree, its outermost calls at depth `d`.
  function Render(b: Body, d: nat): seq<Line> {
    match b
    case End => []
    case Say(x, c, rest) => [Data(x, c)] + Render(rest, d)
    case Print(r, rest) => [Message(r)] + Render(rest, d)
    case Sub(p, inner, rest) => RenderCall(p, Render(inner, d + 1), d) + Render(rest, d)
  }

  function RenderCall(p: nat, body: seq<Line>, d: nat): seq<Line> {
    [Invoke(p, d)] + body + [Complete(p)]
  }

  // A log under way: what has been printed at this level, and the call that is open, if any.
  datatype Open = Idle(own: Body) | In(before: Body, program: nat, inner: Open)

  function Unfinished(o: Open, d: nat): seq<Line> {
    match o
    case Idle(own) => Render(own, d)
    case In(before, p, inner) => Render(before, d) + ([Invoke(p, d)] + Unfinished(inner, d + 1))
  }

  /** The calls that are open, outermost first. */
  function Chain(o: Open): Stack {
    match o
    case Idle(_) => []
    case In(_, p, inner) => [Some(Program(p))] + Chain(inner)
  }

  /** The program that writes the next data line or message; `owner` is the program the log belongs to. */
  function Writer(o: Open, owner: Option<Id>): Option<Id> {
    match o
    case Idle(_) => owner
    case In(_, p, inner) => Writer(inner, Some(Program(p)))
  }

  // ----- Every prefix of a log is a log under way -----

  function Lines(b: Body): nat {
    match b
    case End => 0
    case Say(_, _, rest) => 1 + Lines(rest)
    case Print(_, rest) => 1 + Lines(rest)
    case Sub(_, inner, rest) => 2 + Lines(inner) + Lines(rest)
  }

  lemma {:induction false} RenderLength(b: Body, d: nat)
    ensures |Render(b, d)| == Lines(b)
  {
    match b
    case End =>
    case Say(_, _, rest) => RenderLength(rest, d);
    case Print(_, rest) => RenderLength(rest, d);
    case Sub(_, inner, rest) => RenderLength(inner, d + 1); RenderLength(rest, d);
  }

  function Earlier(first: Body, o: Open): Open {
    match o
    case Idle(own) => Idle(Join(first, own))
    case In(before, p, inner) => In(Join(first, before), p, inner)
  }

  function Join(a: Body, b: Body): Body {
    match a
    case End => b
    case Say(x, c, rest) => Say(x, c, Join(rest, b))
    case Print(r, rest) => Print(r, Join(rest, b))
    case Sub(p, inner, rest) => Sub(p, inner, Join(rest, b))
  }

  lemma {:induction false} RenderJoin(a: Body, b: Body, d: nat)
    ensures Render(Join(a, b), d) == Render(a, d) + Render(b, d)
  {
    match a
    case End =>
    case Say(x, c, rest) =>
      RenderJoin(rest, b, d);
      Regroup([Data(x, c)], Render(rest, d), Render(b, d));
    case Print(r, rest) =>
      RenderJoin(rest, b, d);
      Regroup([Message(r)], Render(rest, d), Render(b, d));
    case Sub(p, inner, rest) =>
      RenderJoin(rest, b, d);
      Regroup(RenderCall(p, Render(inner, d + 1), d), Render(rest, d), Render(b, d));
  }

  lemma EarlierLines(first: Body, o: Open, d: nat)
    ensures Unfinished(Earlier(first, o), d) == Render(first, d) + Unfinished(o, d)
  {
    match o
    case Idle(own) => RenderJoin(first, own, d);
    case In(before, p, inner) =>
      RenderJoin(first, before, d);
      Regroup(Render(first, d), Render(before, d), [Invoke(p, d)] + Unfinished(inner, d + 1));
  }

  /** The log after its first `n` lines. */
  function Truncate(b: Body, n: nat): Open
    requires n <= Lines(b)
  {
    if n == 0 then Idle(End)
    else
      match b
      case Say(x, c, rest) => Earlier(Say(x, c, End), Truncate(rest, n - 1))
      case Print(r, rest) => Earlier(Print(r, End), Truncate(rest, n - 1))
      case Sub(p, inner, rest) =>
        if n <= 1 + Lines(inner) then In(End, p, Truncate(inner, n - 1))
        else Earlier(Sub(p, inner, End), Truncate(rest, n - 2 - Lines(inner)))
  }

  lemma PrefixOfSum(a: seq<Line>, b: seq<Line>, n: nat)
    requires |a| <= n <= |a| + |b|
    ensures (a + b)[..n] == a + b[..n - |a|]
  {
  }

  lemma PrefixOfCall(p: nat, body: seq<Line>, rest: seq<Line>, d: nat, n: nat)
    requires 1 <= n <= 1 + |body|
    ensures (RenderCall(p, body, d) + rest)[..n] == [Invoke(p, d)] + body[..n - 1]
  {
  }

  lemma RenderOne(b: Body, d: nat)
    ensures b.Say? ==> Render(Say(b.payload, b.creates, End), d) == [Data(b.payload, b.creates)]
    ensures b.Print? ==> Render(Print(b.reading, End), d) == [Message(b.reading)]
    ensures b.Sub? ==> Render(Sub(b.program, b.inner, End), d) == RenderCall(b.program, Render(b.inner, d + 1), d)
  {
  }

  lemma {:induction false} TruncateIsPrefix(b: Body, d: nat, n: nat)
    requires n <= Lines(b)
    ensures |Render(b, d)| == Lines(b) && Unfinished(Truncate(b, n), d) == Render(b, d)[..n]
  {
    RenderLength(b, d);
    RenderOne(b, d);
    if n > 0 {
      match b
      case Say(x, c, rest) =>
        TruncateIsPrefix(rest, d, n - 1);
        EarlierLines(Say(x, c, End), Truncate(rest, n - 1), d);
        PrefixOfSum([Data(x, c)], Render(rest, d), n);
      case Print(r, rest) =>
        TruncateIsPrefix(rest, d, n - 1);
        EarlierLines(Print(r, End), Truncate(rest, n - 1), d);
        PrefixOfSum([Message(r)], Render(rest, d), n);
      case Sub(p, inner, rest) =>
        RenderLength(inner, d + 1);
        RenderLength(rest, d);
        if n <= 1 + Lines(inner) {
          TruncateIsPrefix(inner, d + 1, n - 1);
          PrefixOfCall(p, Render(inner, d + 1), Render(rest, d), d, n);
        } else {
          var m := n - 2 - Lines(inner);
          TruncateIsPrefix(rest, d, m);
          EarlierLines(Sub(p, inner, End), Truncate(rest, m), d);
          PrefixOfSum(RenderCall(p, Render(inner, d + 1), d), Render(rest, d), n);
        }
    }
  }

  // ----- The loops -----

  method Shrink(stack: Stack, p: Id) returns (rest: Stack)
    ensures rest == Cut(stack, p)
  {
    var i := |stack|;
    assert stack[..|stack|] == stack;
    while i > 0
      invariant 0 <= i <= |stack| && LastIndexOf(stack, p) == LastIndexOf(stack[..i], p)
    {
      i := i - 1;
      assert stack[..i + 1][..i] == stack[..i];
      if stack[i] == Some(p) {
        return stack[..i];
      }
    }
    rest := stack;
  }

  // The strict loop's reaction to a line, as long as it returns nothing.
  method Follow(stack: Stack, line: Line) returns (next: Stack)
    ensures next == Step(Strict, stack, line)
  {
    var invoke: Option<(Id, nat)> := match line
      case Invoke(p, depth) => Some((Program(p), depth))
      case Message(r) => (match Announced(Strict, r) case Some(a) => Some((Words(a.text), a.depth)) case None => None)
      case _ => None;
    if invoke.Some? {
      var keep := if invoke.value.1 > 0 then invoke.value.1 - 1 else 0;
      next := (if keep < |stack| then stack[..keep] else stack) + [Some(invoke.value.0)];
      return;
    }
    var completed: Option<Id> := match line
      case Complete(p) => Some(Program(p))
      case Message(r) => (match Ended(Strict, r) case Some(t) => Some(Words(t)) case None => None)
      case _ => None;
    next := stack;
    if completed.Some? {
      next := Shrink(stack, completed.value);
    }
  }

  predicate CreatesAt(lines: seq<Line>, i: nat, pump: nat)
    requires i < |lines|
  {
    lines[i].Data? && lines[i].creates && Top(After(Strict, [], lines[..i])) == Some(Program(pump))
  }
}
