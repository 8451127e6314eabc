/** Both program stacks follow the calls of a log exactly as long as no message is taken for an invoke. */
module LogChains {
  import opened Prelude
  import opened LogStacks

  // Addresses only.
  predicate AllPrograms(stack: Stack) {
    forall k :: 0 <= k < |stack| ==> stack[k].Some? && stack[k].value.Program?
  }

  lemma {:induction false} ChainIsPrograms(o: Open)
    ensures AllPrograms(Chain(o))
  {
    if o.In? {
      ChainIsPrograms(o.inner);
    }
  }

  lemma {:induction false} ChainEndsInWriter(o: Open, base: Stack)
    ensures Top(base + Chain(o)) == Writer(o, Top(base))
  {
    match o
    case Idle(_) =>
      assert base + [] == base;
    case In(_, p, inner) =>
      ChainEndsInWriter(inner, base + [Some(Program(p))]);
      AssociateStack(base, p, Chain(inner));
  }

  lemma AssociateStack(base: Stack, p: nat, chain: Stack)
    ensures base + ([Some(Program(p))] + chain) == base + [Some(Program(p))] + chain
  {
  }

  // ----- Lines without an announcement -----

  ghost predicate NoneAnnounces(loop: Loop, lines: seq<Line>) {
    forall k :: 0 <= k < |lines| ==> !Announces(loop, lines[k])
  }

  lemma NoneAnnouncesSum(loop: Loop, a: seq<Line>, b: seq<Line>)
    ensures NoneAnnounces(loop, a + b) <==> NoneAnnounces(loop, a) && NoneAnnounces(loop, b)
  {
    assert forall k :: 0 <= k < |a| ==> (a + b)[k] == a[k];
    assert forall k :: 0 <= k < |b| ==> (a + b)[|a| + k] == b[k];
  }

  // ----- What the proof needs of a step -----

  lemma CloseTop(base: Stack, p: nat)
    ensures Cut(base + [Some(Program(p))], Program(p)) == base
  {
    assert (base + [Some(Program(p))])[|base|] == Some(Program(p));
    assert (base + [Some(Program(p))])[..|base|] == base;
  }

  lemma OpenOnTop(loop: Loop, base: Stack, p: nat)
    ensures Push(loop, base, Program(p), |base| + 1) == base + [Some(Program(p))]
  {
    assert base[..|base|] == base;
  }

  // A message that announces nothing leaves a stack of addresses as it is: there are no words to end.
  lemma HearNothing(loop: Loop, base: Stack, r: Reading)
    requires AllPrograms(base) && Announced(loop, r).None?
    ensures Hear(loop, base, r) == base
  {
    if Ended(loop, r).Some? {
      LastIndexIsLast(base, Words(Ended(loop, r).value));
    }
  }

  ghost predicate OpensCalls(step: (Stack, Line) -> Stack) {
    forall s, p: nat :: step(s, Invoke(p, |s| + 1)) == s + [Some(Program(p))]
  }

  ghost predicate ClosesCalls(step: (Stack, Line) -> Stack) {
    forall s, p: nat :: step(s + [Some(Program(p))], Complete(p)) == s
  }

  ghost predicate IgnoresData(step: (Stack, Line) -> Stack) {
    forall s, x: nat, c: bool :: step(s, Data(x, c)) == s
  }

  ghost predicate IgnoresMessages(step: (Stack, Line) -> Stack, loop: Loop) {
    forall s, r: Reading :: AllPrograms(s) && Announced(loop, r).None? ==> step(s, Message(r)) == s
  }

  // Calls open and close, and nothing else matters.
  ghost predicate Regular(step: (Stack, Line) -> Stack, loop: Loop) {
    OpensCalls(step) && ClosesCalls(step) && IgnoresData(step) && IgnoresMessages(step, loop)
  }

  lemma StepsOpenCalls(loop: Loop)
    ensures OpensCalls(Steps(loop))
  {
    forall s: Stack, p: nat
      ensures Steps(loop)(s, Invoke(p, |s| + 1)) == s + [Some(Program(p))]
    {
      OpenOnTop(loop, s, p);
    }
  }

  lemma StepsCloseCalls(loop: Loop)
    ensures ClosesCalls(Steps(loop))
  {
    forall s: Stack, p: nat
      ensures Steps(loop)(s + [Some(Program(p))], Complete(p)) == s
    {
      CloseTop(s, p);
    }
  }

  lemma StepsIgnoreMessages(loop: Loop)
    ensures IgnoresMessages(Steps(loop), loop)
  {
    forall s: Stack, r: Reading | AllPrograms(s) && Announced(loop, r).None?
      ensures Steps(loop)(s, Message(r)) == s
    {
      HearNothing(loop, s, r);
    }
  }

  lemma StepsAreRegular(loop: Loop)
    ensures Regular(Steps(loop), loop)
  {
    StepsOpenCalls(loop);
    StepsCloseCalls(loop);
    StepsIgnoreMessages(loop);
  }

  // ----- Whole bodies -----

  // These lines leave the stack as it was.
  ghost predicate Returns(step: (Stack, Line) -> Stack, base: Stack, lines: seq<Line>) {
    Fold(step, base, lines) == base
  }

  lemma ReturnsBoth(step: (Stack, Line) -> Stack, base: Stack, a: seq<Line>, b: seq<Line>)
    requires Returns(step, base, a) && Returns(step, base, b)
    ensures Returns(step, base, a + b)
  {
    FoldBoth(step, base, a, b);
  }

  lemma ReturnsOne(step: (Stack, Line) -> Stack, base: Stack, line: Line)
    requires step(base, line) == base
    ensures Returns(step, base, [line])
  {
    FoldOne(step, base, line);
  }

  lemma IntoCall(step: (Stack, Line) -> Stack, base: Stack, line: Line, inside: Stack, more: seq<Line>)
    requires step(base, line) == inside
    ensures Fold(step, base, [line] + more) == Fold(step, inside, more)
  {
    FoldBoth(step, base, [line], more);
    FoldOne(step, base, line);
  }

  lemma CallReturns(step: (Stack, Line) -> Stack, loop: Loop, base: Stack, p: nat, body: seq<Line>)
    requires Regular(step, loop) && Returns(step, base + [Some(Program(p))], body)
    ensures Returns(step, base, RenderCall(p, body, |base| + 1))
  {
    var inside := base + [Some(Program(p))];
    IntoCall(step, base, Invoke(p, |base| + 1), inside, body);
    FoldBoth(step, base, [Invoke(p, |base| + 1)] + body, [Complete(p)]);
    FoldOne(step, inside, Complete(p));
  }

  predicate Quiet(loop: Loop, b: Body) {
    match b
    case End => true
    case Say(_, _, rest) => Quiet(loop, rest)
    case Print(r, rest) => Announced(loop, r).None? && Quiet(loop, rest)
    case Sub(_, inner, rest) => Quiet(loop, inner) && Quiet(loop, rest)
  }

  lemma OneMoreProgram(base: Stack, p: nat)
    requires AllPrograms(base)
    ensures AllPrograms(base + [Some(Program(p))])
  {
  }

  lemma {:induction false} QuietReturns(step: (Stack, Line) -> Stack, loop: Loop, base: Stack, b: Body, d: nat)
    requires Regular(step, loop) && AllPrograms(base) && Quiet(loop, b) && d == |base| + 1
    ensures Returns(step, base, Render(b, d))
    decreases b
  {
    match b
    case End =>
    case Say(x, c, rest) =>
      QuietReturns(step, loop, base, rest, d);
      ReturnsOne(step, base, Data(x, c));
      ReturnsBoth(step, base, [Data(x, c)], Render(rest, d));
    case Print(r, rest) =>
      QuietReturns(step, loop, base, rest, d);
      ReturnsOne(step, base, Message(r));
      ReturnsBoth(step, base, [Message(r)], Render(rest, d));
    case Sub(p, inner, rest) =>
      OneMoreProgram(base, p);
      QuietReturns(step, loop, base + [Some(Program(p))], inner, d + 1);
      CallReturns(step, loop, base, p, Render(inner, d + 1));
      QuietReturns(step, loop, base, rest, d);
      ReturnsBoth(step, base, RenderCall(p, Render(inner, d + 1), d), Render(rest, d));
  }

  // ----- Logs under way -----

  predicate QuietSoFar(loop: Loop, o: Open) {
    match o
    case Idle(own) => Quiet(loop, own)
    case In(before, _, inner) => Quiet(loop, before) && QuietSoFar(loop, inner)
  }

  lemma {:induction false} RegularFollows(step: (Stack, Line) -> Stack, loop: Loop, base: Stack, o: Open, d: nat)
    requires Regular(step, loop) && AllPrograms(base) && QuietSoFar(loop, o) && d == |base| + 1
    ensures Fold(step, base, Unfinished(o, d)) == base + Chain(o)
    decreases o
  {
    match o
    case Idle(own) =>
      QuietReturns(step, loop, base, own, d);
      assert base + [] == base;
    case In(before, p, inner) =>
      var inside := base + [Some(Program(p))];
      QuietReturns(step, loop, base, before, d);
      OneMoreProgram(base, p);
      RegularFollows(step, loop, inside, inner, d + 1);
      IntoCall(step, base, Invoke(p, d), inside, Unfinished(inner, d + 1));
      FoldBoth(step, base, Render(before, d), [Invoke(p, d)] + Unfinished(inner, d + 1));
      AssociateStack(base, p, Chain(inner));
  }

  lemma {:induction false} QuietMeans(loop: Loop, b: Body, d: nat)
    ensures Quiet(loop, b) <==> NoneAnnounces(loop, Render(b, d))
  {
    match b
    case End =>
    case Say(x, c, rest) =>
      QuietMeans(loop, rest, d);
      NoneAnnouncesSum(loop, [Data(x, c)], Render(rest, d));
    case Print(r, rest) =>
      QuietMeans(loop, rest, d);
      NoneAnnouncesSum(loop, [Message(r)], Render(rest, d));
      assert NoneAnnounces(loop, [Message(r)]) <==> !Announces(loop, [Message(r)][0]);
    case Sub(p, inner, rest) =>
      QuietMeans(loop, inner, d + 1);
      QuietMeans(loop, rest, d);
      NoneAnnouncesSum(loop, [Invoke(p, d)], Render(inner, d + 1));
      NoneAnnouncesSum(loop, [Invoke(p, d)] + Render(inner, d + 1), [Complete(p)]);
      NoneAnnouncesSum(loop, RenderCall(p, Render(inner, d + 1), d), Render(rest, d));
  }

  lemma {:induction false} QuietSoFarMeans(loop: Loop, o: Open, d: nat)
    ensures QuietSoFar(loop, o) <==> NoneAnnounces(loop, Unfinished(o, d))
  {
    match o
    case Idle(own) => QuietMeans(loop, own, d);
    case In(before, p, inner) =>
      QuietMeans(loop, before, d);
      QuietSoFarMeans(loop, inner, d + 1);
      NoneAnnouncesSum(loop, [Invoke(p, d)], Unfinished(inner, d + 1));
      NoneAnnouncesSum(loop, Render(before, d), [Invoke(p, d)] + Unfinished(inner, d + 1));
  }

  /** Where no message is taken for an invoke, either stack is exactly the chain of open calls. */
  lemma StackIsChain(loop: Loop, o: Open)
    requires NoneAnnounces(loop, Unfinished(o, 1))
    ensures After(loop, [], Unfinished(o, 1)) == Chain(o)
  {
    QuietSoFarMeans(loop, o, 1);
    StepsAreRegular(loop);
    RegularFollows(Steps(loop), loop, [], o, 1);
    OnNothing(Chain(o));
  }

  lemma OnNothing(chain: Stack)
    ensures [] + chain == chain
  {
  }

  /** And a data line written now is attributed, by either loop, to the program that writes it. */
  lemma DataIsAttributed(loop: Loop, o: Open)
    requires NoneAnnounces(loop, Unfinished(o, 1))
    ensures Top(After(loop, [], Unfinished(o, 1))) == Writer(o, None)
  {
    StackIsChain(loop, o);
    ChainEndsInWriter(o, []);
    OnNothing(Chain(o));
  }

  // ----- Exactly -----

  // The stack is the chain of open calls all along the first `n` lines.
  ghost predicate ChainsTo(loop: Loop, b: Body, n: nat)
    requires n <= Lines(b) == |Render(b, 1)|
  {
    forall m :: 0 <= m <= n ==> After(loop, [], Render(b, 1)[..m]) == Chain(Truncate(b, m))
  }

  lemma QuietPrefixChains(loop: Loop, b: Body, n: nat, m: nat)
    requires m <= n <= Lines(b) == |Render(b, 1)| && NoneAnnounces(loop, Render(b, 1)[..n])
    ensures After(loop, [], Render(b, 1)[..m]) == Chain(Truncate(b, m))
  {
    var log := Render(b, 1);
    assert log[..n] == log[..m] + log[m..n];
    NoneAnnouncesSum(loop, log[..m], log[m..n]);
    TruncateIsPrefix(b, 1, m);
    StackIsChain(loop, Truncate(b, m));
  }

  /**
   Over every log: either stack is the chain of open calls all along if and only if no message up to
   there is taken for an invoke.
   */
  lemma StackIsChainExactly(loop: Loop, b: Body, n: nat)
    requires n <= Lines(b)
    ensures |Render(b, 1)| == Lines(b)
    ensures ChainsTo(loop, b, n) <==> NoneAnnounces(loop, Render(b, 1)[..n])
  {
    RenderLength(b, 1);
    if NoneAnnounces(loop, Render(b, 1)[..n]) {
      forall m | 0 <= m <= n
        ensures After(loop, [], Render(b, 1)[..m]) == Chain(Truncate(b, m))
      {
        QuietPrefixChains(loop, b, n, m);
      }
    } else {
      var k :| 0 <= k < n && Announces(loop, Render(b, 1)[..n][k]);
      if ChainsTo(loop, b, n) {
        WordsOnStack(loop, Render(b, 1), k, Chain(Truncate(b, k)), Chain(Truncate(b, k + 1)));
        ChainIsPrograms(Truncate(b, k));
        ChainIsPrograms(Truncate(b, k + 1));
      }
    }
  }

  lemma {:induction false} HolesAreEmpty(n: nat)
    ensures |Holes(n)| == n && forall k :: 0 <= k < n ==> Holes(n)[k] == None
  {
    if n > 0 {
      HolesAreEmpty(n - 1);
    }
  }

  // A push brings nothing but its own entry: what else is there was there or is a hole.
  lemma PushAddsOnly(loop: Loop, base: Stack, p: Id, depth: nat)
    ensures var s := Push(loop, base, p, depth);
            s != [] && s[|s| - 1] == Some(p) && forall k :: 0 <= k < |s| - 1 ==> s[k] == None || (k < |base| && s[k] == base[k])
  {
    var n := if depth > 0 then depth - 1 else 0;
    if n > |base| {
      HolesAreEmpty(n - |base|);
    }
  }

  // What an announcement leaves on top of a stack of addresses.
  lemma HearWords(loop: Loop, base: Stack, r: Reading)
    requires AllPrograms(base) && Announced(loop, r).Some?
    ensures Top(Hear(loop, base, r)) == Some(Words(Announced(loop, r).value.text))
  {
    var a := Announced(loop, r).value;
    PushAddsOnly(loop, base, Words(a.text), a.depth);
    if Ended(loop, r).Some? {
      LastIndexIsLast(Push(loop, base, Words(a.text), a.depth), Words(Ended(loop, r).value));
    }
  }

  // So a stack of addresses that meets an announcement is one no more.
  lemma WordsOnStack(loop: Loop, log: seq<Line>, k: nat, before: Stack, after: Stack)
    requires k < |log| && Announces(loop, log[k])
    requires After(loop, [], log[..k]) == before && After(loop, [], log[..k + 1]) == after
    ensures !(AllPrograms(before) && AllPrograms(after))
  {
    AfterNext(loop, log, k);
    if AllPrograms(before) {
      HearWords(loop, before, log[k].reading);
    }
  }

  // ----- Creates -----

  /** On a log that is quiet so far: a create is detected exactly if the program itself logged one. */
  lemma CreatesAreTrue(b: Body, i: nat, pump: nat)
    requires i < Lines(b) && |Render(b, 1)| == Lines(b) && NoneAnnounces(Strict, Render(b, 1)[..i])
    ensures CreatesAt(Render(b, 1), i, pump) <==>
            Render(b, 1)[i].Data? && Render(b, 1)[i].creates && Writer(Truncate(b, i), None) == Some(Program(pump))
  {
    TruncateIsPrefix(b, 1, i);
    DataIsAttributed(Strict, Truncate(b, i));
  }
}
