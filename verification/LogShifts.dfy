/**
 What is printed in a call does not reach below the depths it claims: on a chain of calls, the part
 below can be taken away, and the lines read with depths counted from there.
 */
module LogShifts {
  import opened Prelude
  import opened LogStacks
  import opened LogChains
  import opened LogMessages
  import opened LogEntries

  /** No message of the call or of a call inside it is taken for an invoke at depth `f` or above. */
  predicate Deeper(loop: Loop, b: Body, f: nat) {
    match b
    case End => true
    case Say(_, _, rest) => Deeper(loop, rest, f)
    case Print(r, rest) => (Announced(loop, r).None? || Announced(loop, r).value.depth > f) && Deeper(loop, rest, f)
    case Sub(_, inner, rest) => Deeper(loop, inner, f) && Deeper(loop, rest, f)
  }

  /** No program that is called, at any depth, stands on `c`. */
  predicate Apart(b: Body, c: Stack) {
    match b
    case End => true
    case Say(_, _, rest) => Apart(rest, c)
    case Print(_, rest) => Apart(rest, c)
    case Sub(p, inner, rest) => Some(Program(p)) !in c && Apart(inner, c) && Apart(rest, c)
  }

  /** The same lines with depths counted from `f`. */
  function Lower(b: Body, f: nat): Body {
    match b
    case End => End
    case Say(x, c, rest) => Say(x, c, Lower(rest, f))
    case Print(r, rest) => Print(Lowered(r, f), Lower(rest, f))
    case Sub(p, inner, rest) => Sub(p, Lower(inner, f), Lower(rest, f))
  }

  // ----- Taking the part below away -----

  lemma CutApart(c: Stack, t: Stack, y: Id)
    requires Some(y) !in c
    ensures Cut(c + t, y) == c + Cut(t, y)
  {
    var k := CutIsPrefix(c + t, y);
    var j := CutIsPrefix(t, y);
    assert forall i :: 0 <= i < |t| ==> (c + t)[|c| + i] == t[i];
    assert forall i :: |c| <= i < |c + t| ==> (c + t)[i] == t[i - |c|];
    assert forall i :: 0 <= i < |c| ==> (c + t)[i] == c[i];
    assert k == |c| + j;
  }

  lemma AnnounceApart(loop: Loop, c: Stack, t: Stack, r: Reading)
    requires Announced(loop, r).None? || Announced(loop, r).value.depth > |c|
    ensures Announce(loop, c + t, r) == c + Announce(loop, t, Lowered(r, |c|))
  {
    if Announced(loop, r).Some? {
      PushAbove(loop, c, t, Words(Announced(loop, r).value.text), Announced(loop, r).value.depth);
    }
  }

  lemma HearApart(loop: Loop, c: Stack, t: Stack, r: Reading)
    requires AllPrograms(c) && (Announced(loop, r).None? || Announced(loop, r).value.depth > |c|)
    ensures Hear(loop, c + t, r) == c + Hear(loop, t, Lowered(r, |c|))
  {
    var low := Lowered(r, |c|);
    AnnounceApart(loop, c, t, r);
    HearIs(loop, c + t, r);
    HearIs(loop, t, low);
    assert Ended(loop, low) == Ended(loop, r);
    if Ended(loop, r).Some? {
      CutApart(c, Announce(loop, t, low), Words(Ended(loop, r).value));
    }
  }

  // What a call makes of a stack.
  function OneCall(loop: Loop, s: Stack, p: nat, inner: Body, d: nat): Stack {
    Cut(Leaves(loop, Push(loop, s, Program(p), d), inner, d + 1), Program(p))
  }

  lemma CallThenRest(loop: Loop, s: Stack, p: nat, inner: Body, rest: Body, d: nat)
    ensures Leaves(loop, s, Sub(p, inner, rest), d) == Leaves(loop, OneCall(loop, s, p, inner, d), rest, d)
  {
  }

  /**
   Where no announcement reaches down to `c` and no program of `c` is called, the lines do above `c` what
   they do by themselves.
   */
  lemma {:induction false} LeavesApart(loop: Loop, c: Stack, t: Stack, b: Body, d: nat, e: nat)
    requires AllPrograms(c) && Deeper(loop, b, |c|) && Apart(b, c) && d == |c| + e && e > 0
    ensures Leaves(loop, c + t, b, d) == c + Leaves(loop, t, Lower(b, |c|), e)
    decreases b, 0
  {
    match b
    case End =>
    case Say(_, _, rest) => LeavesApart(loop, c, t, rest, d, e);
    case Print(r, rest) =>
      HearApart(loop, c, t, r);
      LeavesApart(loop, c, Hear(loop, t, Lowered(r, |c|)), rest, d, e);
    case Sub(p, inner, rest) =>
      var low := OneCall(loop, t, p, Lower(inner, |c|), e);
      CallApart(loop, c, t, p, inner, d, e);
      CallThenRest(loop, c + t, p, inner, rest, d);
      CallThenRest(loop, t, p, Lower(inner, |c|), Lower(rest, |c|), e);
      LeavesApart(loop, c, low, rest, d, e);
  }

  lemma CallApart(loop: Loop, c: Stack, t: Stack, p: nat, inner: Body, d: nat, e: nat)
    requires AllPrograms(c) && Deeper(loop, inner, |c|) && Apart(inner, c) && Some(Program(p)) !in c && d == |c| + e && e > 0
    ensures OneCall(loop, c + t, p, inner, d) == c + OneCall(loop, t, p, Lower(inner, |c|), e)
    decreases inner, 1
  {
    var inside := Push(loop, t, Program(p), e);
    LeavesApart(loop, c, inside, inner, d + 1, e + 1);
    ClosesApart(loop, c, t, p, inner, d, e);
  }

  lemma ClosesApart(loop: Loop, c: Stack, t: Stack, p: nat, inner: Body, d: nat, e: nat)
    requires Some(Program(p)) !in c && d == |c| + e && e > 0
    requires var inside := Push(loop, t, Program(p), e);
             Leaves(loop, c + inside, inner, d + 1) == c + Leaves(loop, inside, Lower(inner, |c|), e + 1)
    ensures OneCall(loop, c + t, p, inner, d) == c + OneCall(loop, t, p, Lower(inner, |c|), e)
  {
    PushAbove(loop, c, t, Program(p), d);
    CutApart(c, Leaves(loop, Push(loop, t, Program(p), e), Lower(inner, |c|), e + 1), Program(p));
  }

  // ----- Announcements that do reach down -----

  // A push this low leaves none of `w`.
  lemma LowPushLoses(loop: Loop, c: Stack, t: Stack, text: nat, depth: nat, w: nat)
    requires 0 < depth <= |c| && Some(Program(w)) !in c[..|c| - 1]
    ensures Count(Push(loop, c + t, Words(text), depth), Program(w)) == 0
  {
    assert (c + t)[..depth - 1] == c[..|c| - 1][..depth - 1];
    CountNone(c[..|c| - 1][..depth - 1] + [Some(Words(text))], Program(w));
  }

  lemma LowHearLoses(loop: Loop, c: Stack, t: Stack, r: Reading, w: nat)
    requires Announced(loop, r).Some? && Announced(loop, r).value.depth <= |c| && Some(Program(w)) !in c[..|c| - 1]
    ensures Count(Hear(loop, c + t, r), Program(w)) == 0
  {
    var a := Announced(loop, r).value;
    LowPushLoses(loop, c, t, a.text, a.depth, w);
    if Ended(loop, r).Some? {
      CutCounts(Push(loop, c + t, Words(a.text), a.depth), Words(Ended(loop, r).value), Program(w));
    }
  }

  // None of `w` is left by these lines.
  ghost predicate Loses(loop: Loop, s: Stack, b: Body, d: nat, w: nat) {
    Count(Leaves(loop, s, b, d), Program(w)) == 0
  }

  lemma StillLost(loop: Loop, s: Stack, b: Body, d: nat, w: nat)
    requires Count(s, Program(w)) == 0
    ensures Loses(loop, s, b, d, w)
  {
    LeavesCounts(loop, s, b, d, w);
  }

  // Once an announcement reaches down to `c`, a program that does not stand below is lost for good.
  lemma {:induction false} LowLoses(loop: Loop, c: Stack, t: Stack, b: Body, d: nat, e: nat, w: nat)
    requires AllPrograms(c) && c != [] && !Deeper(loop, b, |c|) && Apart(b, c) && d == |c| + e && e > 0
    requires Some(Program(w)) !in c[..|c| - 1]
    ensures Loses(loop, c + t, b, d, w)
    decreases b, 0
  {
    match b
    case Say(_, _, rest) => LowLoses(loop, c, t, rest, d, e, w);
    case Print(r, rest) =>
      if Announced(loop, r).Some? && Announced(loop, r).value.depth <= |c| {
        LowHearLoses(loop, c, t, r, w);
        StillLost(loop, Hear(loop, c + t, r), rest, d, w);
      } else {
        HearApart(loop, c, t, r);
        LowLoses(loop, c, Hear(loop, t, Lowered(r, |c|)), rest, d, e, w);
      }
    case Sub(p, inner, rest) =>
      CallThenRest(loop, c + t, p, inner, rest, d);
      if Deeper(loop, inner, |c|) {
        CallApart(loop, c, t, p, inner, d, e);
        LowLoses(loop, c, OneCall(loop, t, p, Lower(inner, |c|), e), rest, d, e, w);
      } else {
        LowCallLoses(loop, c, t, p, inner, d, e, w);
        StillLost(loop, OneCall(loop, c + t, p, inner, d), rest, d, w);
      }
  }

  lemma LowCallLoses(loop: Loop, c: Stack, t: Stack, p: nat, inner: Body, d: nat, e: nat, w: nat)
    requires AllPrograms(c) && c != [] && !Deeper(loop, inner, |c|) && Apart(inner, c) && d == |c| + e && e > 0
    requires Some(Program(w)) !in c[..|c| - 1]
    ensures Count(OneCall(loop, c + t, p, inner, d), Program(w)) == 0
    decreases inner, 1
  {
    LowLoses(loop, c, Push(loop, t, Program(p), e), inner, d + 1, e + 1, w);
    PushAbove(loop, c, t, Program(p), d);
    CutCounts(Leaves(loop, Push(loop, c + t, Program(p), d), inner, d + 1), Program(p), Program(w));
  }

  lemma CountLast(r: Stack, x: Id)
    ensures Top(r) == Some(x) ==> Count(r, x) > 0
  {
  }

  lemma NoCountNotOnTop(r: Stack, w: nat)
    requires Count(r, Program(w)) == 0
    ensures Top(r) != Some(Program(w))
  {
    CountLast(r, Program(w));
  }

  lemma TopAbove(c: Stack, t: Stack, w: nat)
    requires c == [] || c[|c| - 1] != Some(Program(w))
    ensures Top(c + t) == Some(Program(w)) <==> Top(t) == Some(Program(w))
  {
    if t == [] {
      assert c + t == c;
    } else {
      assert (c + t)[|c + t| - 1] == t[|t| - 1];
    }
  }
}
