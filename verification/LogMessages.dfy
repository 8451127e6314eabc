/**
 What messages can do to the attribution of a call's data lines. A program may print anything,
 including a line that the parser takes for an invoke or for the end of a call.
 */
module LogMessages {
  import opened Prelude
  import opened LogStacks
  import opened LogChains

  // ----- Concrete logs that mislead both loops -----

  // A message that reads, to the letter, as an invoke at depth 1.
  function Misread(text: nat): Reading {
    Heard(Some(Announcement(text, 1)), true, None, false)
  }

  /** A program that prints such a message: what it logs next is attributed to the message's words. */
  lemma MessageIsTakenForInvoke(loop: Loop, program: nat, text: nat)
    ensures var o := In(End, program, Idle(Print(Misread(text), End)));
            && Unfinished(o, 1) == [Invoke(program, 1), Message(Misread(text))]
            && Writer(o, None) == Some(Program(program))
            && Top(After(loop, [], Unfinished(o, 1))) == Some(Words(text))
  {
    var r := Misread(text);
    assert Render(Print(r, End), 2) == [Message(r)];
    assert Unfinished(In(End, program, Idle(Print(r, End))), 1) == [Invoke(program, 1), Message(r)];
    assert Push(loop, [], Program(program), 1) == [Some(Program(program))];
    IntoCall(Steps(loop), [], Invoke(program, 1), [Some(Program(program))], [Message(r)]);
    FoldOne(Steps(loop), [Some(Program(program))], Message(r));
    assert [Invoke(program, 1)] + [Message(r)] == [Invoke(program, 1), Message(r)];
    assert Hear(loop, [Some(Program(program))], r) == [Some(Words(text))];
  }

  /** And a create that it logs next is missed. */
  lemma CreateIsMissed(pump: nat, text: nat, i: nat)
    ensures var b := Sub(pump, Print(Misread(text), Say(0, true, End)), End);
            && Render(b, 1) == [Invoke(pump, 1), Message(Misread(text)), Data(0, true), Complete(pump)]
            && Lines(b) == 4 && Writer(Truncate(b, 2), None) == Some(Program(pump))
            && (i < 4 ==> !CreatesAt(Render(b, 1), i, pump))
  {
    var r := Misread(text);
    var inner := Print(r, Say(0, true, End));
    assert Earlier(Print(r, End), Idle(End)).own == Join(Print(r, End), End) == Print(r, Join(End, End));
    assert Render(Say(0, true, End), 2) == [Data(0, true)];
    assert Render(inner, 2) == [Message(r), Data(0, true)];
    assert Render(Sub(pump, inner, End), 1) == [Invoke(pump, 1), Message(r), Data(0, true), Complete(pump)];
    assert Truncate(Say(0, true, End), 0) == Idle(End);
    assert Earlier(Print(r, End), Idle(End)) == Idle(Print(r, End));
    assert Truncate(inner, 1) == Idle(Print(r, End));
    assert Truncate(Sub(pump, inner, End), 2) == In(End, pump, Idle(Print(r, End)));
    MessageIsTakenForInvoke(Strict, pump, text);
    assert Render(Sub(pump, inner, End), 1)[..2] == [Invoke(pump, 1), Message(r)];
  }

  // ----- How often a program stands on the stack -----

  function Count(s: Stack, x: Id): nat {
    if s == [] then 0 else Count(s[..|s| - 1], x) + (if s[|s| - 1] == Some(x) then 1 else 0)
  }

  lemma {:induction false} CountSum(a: Stack, b: Stack, x: Id)
    ensures Count(a + b, x) == Count(a, x) + Count(b, x)
  {
    if b == [] {
      assert a + b == a;
    } else {
      CountSum(a, b[..|b| - 1], x);
      assert (a + b)[..|a + b| - 1] == a + b[..|b| - 1];
    }
  }

  lemma CountOne(e: Option<Id>, x: Id)
    ensures Count([e], x) == if e == Some(x) then 1 else 0
  {
    assert [e][..0] == [];
  }

  lemma {:induction false} CountNone(s: Stack, x: Id)
    requires Some(x) !in s
    ensures Count(s, x) == 0
  {
    if s != [] {
      CountNone(s[..|s| - 1], x);
    }
  }

  lemma CountPrefix(s: Stack, k: nat, x: Id)
    requires k <= |s|
    ensures Count(s[..k], x) + Count(s[k..], x) == Count(s, x)
  {
    CountSum(s[..k], s[k..], x);
    assert s[..k] + s[k..] == s;
  }

  lemma {:induction false} CountMember(s: Stack, k: nat, x: Id)
    requires k < |s| && s[k] == Some(x)
    ensures Count(s, x) > 0
  {
    if k < |s| - 1 {
      CountMember(s[..|s| - 1], k, x);
    }
  }

  lemma CountDrop(s: Stack, k: nat, j: nat, x: Id)
    requires k <= j < |s| && s[j] == Some(x)
    ensures Count(s[..k], x) < Count(s, x)
  {
    CountPrefix(s, k, x);
    CountMember(s[k..], j - k, x);
  }

  lemma CutIsPrefix(s: Stack, y: Id) returns (k: nat)
    ensures k <= |s| && Cut(s, y) == s[..k] && (k == |s| || s[k] == Some(y))
    ensures forall j :: k < j < |s| ==> s[j] != Some(y)
    ensures k == |s| ==> Some(y) !in s
  {
    LastIndexIsLast(s, y);
    k := match LastIndexOf(s, y) case Some(i) => i case None => |s|;
  }

  lemma CutCounts(s: Stack, y: Id, x: Id)
    ensures Count(Cut(s, y), x) <= Count(s, x)
    ensures y == x && Count(s, x) > 0 ==> Count(Cut(s, y), x) < Count(s, x)
  {
    var k := CutIsPrefix(s, y);
    CountPrefix(s, k, x);
    if k < |s| {
      if y == x {
        CountDrop(s, k, k, x);
      }
    } else {
      if y == x {
        CountNone(s, x);
      }
    }
  }

  lemma ResizeCounts(loop: Loop, s: Stack, n: nat, x: Id)
    ensures Count(Resize(loop, s, n), x) <= Count(s, x)
  {
    if n <= |s| {
      CountPrefix(s, n, x);
    } else if loop == Loose {
      HolesAreEmpty(n - |s|);
      CountNone(Holes(n - |s|), x);
      CountSum(s, Holes(n - |s|), x);
    }
  }

  lemma PushCounts(loop: Loop, s: Stack, y: Id, depth: nat, x: Id)
    ensures Count(Push(loop, s, y, depth), x) <= Count(s, x) + (if y == x then 1 else 0)
  {
    var n := if depth > 0 then depth - 1 else 0;
    ResizeCounts(loop, s, n, x);
    CountSum(Resize(loop, s, n), [Some(y)], x);
    CountOne(Some(y), x);
  }

  // No message adds a program.
  lemma HearCounts(loop: Loop, s: Stack, r: Reading, x: nat)
    ensures Count(Hear(loop, s, r), Program(x)) <= Count(s, Program(x))
  {
    var pushed := match Announced(loop, r) case Some(a) => Push(loop, s, Words(a.text), a.depth) case None => s;
    if Announced(loop, r).Some? {
      PushCounts(loop, s, Words(Announced(loop, r).value.text), Announced(loop, r).value.depth, Program(x));
    }
    if Ended(loop, r).Some? {
      CutCounts(pushed, Words(Ended(loop, r).value), Program(x));
    }
  }

  // ----- Bodies, part by part -----

  // What a body makes of a stack.
  function Leaves(loop: Loop, s: Stack, b: Body, d: nat): Stack
    decreases b
  {
    match b
    case End => s
    case Say(_, _, rest) => Leaves(loop, s, rest, d)
    case Print(r, rest) => Leaves(loop, Hear(loop, s, r), rest, d)
    case Sub(p, inner, rest) => Leaves(loop, Cut(Leaves(loop, Push(loop, s, Program(p), d), inner, d + 1), Program(p)), rest, d)
  }

  lemma {:induction false} LeavesIsAfter(loop: Loop, s: Stack, b: Body, d: nat)
    ensures Fold(Steps(loop), s, Render(b, d)) == Leaves(loop, s, b, d)
    decreases b
  {
    match b
    case End =>
    case Say(x, c, rest) =>
      IntoCall(Steps(loop), s, Data(x, c), s, Render(rest, d));
      LeavesIsAfter(loop, s, rest, d);
    case Print(r, rest) =>
      IntoCall(Steps(loop), s, Message(r), Hear(loop, s, r), Render(rest, d));
      LeavesIsAfter(loop, Hear(loop, s, r), rest, d);
    case Sub(p, inner, rest) =>
      var inside := Push(loop, s, Program(p), d);
      LeavesIsAfter(loop, inside, inner, d + 1);
      CallIsAfter(loop, s, p, Render(inner, d + 1), d);
      FoldBoth(Steps(loop), s, RenderCall(p, Render(inner, d + 1), d), Render(rest, d));
      LeavesIsAfter(loop, Cut(Leaves(loop, inside, inner, d + 1), Program(p)), rest, d);
  }

  lemma CallIsAfter(loop: Loop, s: Stack, p: nat, body: seq<Line>, d: nat)
    ensures Fold(Steps(loop), s, RenderCall(p, body, d))
         == Cut(Fold(Steps(loop), Push(loop, s, Program(p), d), body), Program(p))
  {
    IntoCall(Steps(loop), s, Invoke(p, d), Push(loop, s, Program(p), d), body);
    FoldBoth(Steps(loop), s, [Invoke(p, d)] + body, [Complete(p)]);
    FoldOne(Steps(loop), Fold(Steps(loop), s, [Invoke(p, d)] + body), Complete(p));
  }

  // Calls that are over, and messages, add no program.
  lemma {:induction false} LeavesCounts(loop: Loop, s: Stack, b: Body, d: nat, x: nat)
    ensures Count(Leaves(loop, s, b, d), Program(x)) <= Count(s, Program(x))
    decreases b
  {
    match b
    case End =>
    case Say(_, _, rest) => LeavesCounts(loop, s, rest, d, x);
    case Print(r, rest) =>
      HearCounts(loop, s, r, x);
      LeavesCounts(loop, Hear(loop, s, r), rest, d, x);
    case Sub(p, inner, rest) =>
      var inside := Push(loop, s, Program(p), d);
      var ended := Leaves(loop, inside, inner, d + 1);
      PushCounts(loop, s, Program(p), d, Program(x));
      LeavesCounts(loop, inside, inner, d + 1, x);
      CutCounts(ended, Program(p), Program(x));
      LeavesCounts(loop, Cut(ended, Program(p)), rest, d, x);
  }

  // ----- A call's own entry, once lost, does not come back -----

  // `own` ends in the entry of a call of `x`: it stands, or `x` stands on the stack less often than before.
  ghost predicate KeptOrLost(own: Stack, before: Stack, after: Stack, x: nat) {
    own <= after || Count(after, Program(x)) < Count(before, Program(x))
  }

  lemma PrefixKeptOrLost(own: Stack, s: Stack, k: nat, x: nat)
    requires own != [] && own[|own| - 1] == Some(Program(x)) && own <= s && k <= |s|
    ensures KeptOrLost(own, s, s[..k], x)
  {
    if k < |own| {
      CountDrop(s, k, |own| - 1, Program(x));
    }
  }

  lemma CutKeptOrLost(own: Stack, s: Stack, y: Id, x: nat)
    requires own != [] && own[|own| - 1] == Some(Program(x)) && own <= s
    ensures KeptOrLost(own, s, Cut(s, y), x)
  {
    var k := CutIsPrefix(s, y);
    PrefixKeptOrLost(own, s, k, x);
  }

  lemma HearKeptOrLost(loop: Loop, own: Stack, s: Stack, r: Reading, x: nat)
    requires own != [] && own[|own| - 1] == Some(Program(x)) && own <= s
    ensures KeptOrLost(own, s, Hear(loop, s, r), x)
  {
    if Announced(loop, r).Some? {
      var a := Announced(loop, r).value;
      var pushed := Push(loop, s, Words(a.text), a.depth);
      PushKeptOrLost(loop, own, s, a, x);
      if Ended(loop, r).Some? {
        CutCounts(pushed, Words(Ended(loop, r).value), Program(x));
        if own <= pushed {
          PushCounts(loop, s, Words(a.text), a.depth, Program(x));
          CutKeptOrLost(own, pushed, Words(Ended(loop, r).value), x);
        }
      }
    } else if Ended(loop, r).Some? {
      CutKeptOrLost(own, s, Words(Ended(loop, r).value), x);
    }
  }

  lemma PushKeptOrLost(loop: Loop, own: Stack, s: Stack, a: Announcement, x: nat)
    requires own != [] && own[|own| - 1] == Some(Program(x)) && own <= s
    ensures KeptOrLost(own, s, Push(loop, s, Words(a.text), a.depth), x)
  {
    var n := if a.depth > 0 then a.depth - 1 else 0;
    if n < |own| {
      CountSum(s[..n], [Some(Words(a.text))], Program(x));
      CountOne(Some(Words(a.text)), Program(x));
      CountDrop(s, n, |own| - 1, Program(x));
    } else {
      PushKeeps(loop, own, s, Words(a.text), a.depth);
    }
  }

  lemma PushKeeps(loop: Loop, own: Stack, s: Stack, y: Id, depth: nat)
    requires own <= s && depth > |own|
    ensures own <= Push(loop, s, y, depth)
  {
  }

  // The end of a call that ran inside: its entry goes, or, if that was lost, an earlier one of its program.
  lemma EndKeptOrLost(own: Stack, s: Stack, inside: Stack, ended: Stack, p: nat, x: nat)
    requires own != [] && own[|own| - 1] == Some(Program(x)) && own <= s
    requires Count(inside, Program(x)) <= Count(s, Program(x)) + (if p == x then 1 else 0)
    requires KeptOrLost(own, inside, ended, x) && Count(ended, Program(x)) <= Count(inside, Program(x))
    ensures KeptOrLost(own, s, Cut(ended, Program(p)), x)
  {
    var k := CutIsPrefix(ended, Program(p));
    CutCounts(ended, Program(p), Program(x));
    CountMember(s, |own| - 1, Program(x));
    if own <= ended {
      if k < |own| {
        CountPrefix(own, |own| - 1, Program(x));
        OwnCut(own, s, ended, k, x);
      }
    }
  }

  // Cutting below the own entry leaves fewer of its program than any stack that begins with it has.
  lemma OwnCut(own: Stack, s: Stack, ended: Stack, k: nat, x: nat)
    requires own != [] && own[|own| - 1] == Some(Program(x)) && own <= s && own <= ended && k < |own|
    ensures Count(ended[..k], Program(x)) < Count(s, Program(x))
  {
    assert ended[..k] == s[..k];
    CountDrop(s, k, |own| - 1, Program(x));
  }

  lemma {:induction false} LeavesKeptOrLost(loop: Loop, own: Stack, s: Stack, b: Body, d: nat, x: nat)
    requires own != [] && own[|own| - 1] == Some(Program(x)) && own <= s && |own| < d
    ensures KeptOrLost(own, s, Leaves(loop, s, b, d), x)
    decreases b, 0
  {
    match b
    case End =>
    case Say(_, _, rest) => LeavesKeptOrLost(loop, own, s, rest, d, x);
    case Print(r, rest) =>
      HearKeptOrLost(loop, own, s, r, x);
      HearCounts(loop, s, r, x);
      RestKeptOrLost(loop, own, s, Hear(loop, s, r), rest, d, x);
    case Sub(p, inner, rest) =>
      CallKeptOrLost(loop, own, s, p, inner, d, x);
      CallCounts(loop, s, p, inner, d, x);
      RestKeptOrLost(loop, own, s, Cut(Leaves(loop, Push(loop, s, Program(p), d), inner, d + 1), Program(p)), rest, d, x);
  }

  lemma CallKeptOrLost(loop: Loop, own: Stack, s: Stack, p: nat, inner: Body, d: nat, x: nat)
    requires own != [] && own[|own| - 1] == Some(Program(x)) && own <= s && |own| < d
    ensures KeptOrLost(own, s, Cut(Leaves(loop, Push(loop, s, Program(p), d), inner, d + 1), Program(p)), x)
    decreases inner, 1
  {
    var inside := Push(loop, s, Program(p), d);
    PushKeeps(loop, own, s, Program(p), d);
    LeavesKeptOrLost(loop, own, inside, inner, d + 1, x);
    LeavesCounts(loop, inside, inner, d + 1, x);
    CallEnds(loop, own, s, p, d, Leaves(loop, inside, inner, d + 1), x);
  }

  lemma CallEnds(loop: Loop, own: Stack, s: Stack, p: nat, d: nat, ended: Stack, x: nat)
    requires own != [] && own[|own| - 1] == Some(Program(x)) && own <= s
    requires KeptOrLost(own, Push(loop, s, Program(p), d), ended, x)
    requires Count(ended, Program(x)) <= Count(Push(loop, s, Program(p), d), Program(x))
    ensures KeptOrLost(own, s, Cut(ended, Program(p)), x)
  {
    PushCounts(loop, s, Program(p), d, Program(x));
    EndKeptOrLost(own, s, Push(loop, s, Program(p), d), ended, p, x);
  }

  lemma CallCounts(loop: Loop, s: Stack, p: nat, inner: Body, d: nat, x: nat)
    ensures Count(Cut(Leaves(loop, Push(loop, s, Program(p), d), inner, d + 1), Program(p)), Program(x)) <= Count(s, Program(x))
  {
    LeavesCounts(loop, s, Sub(p, inner, End), d, x);
  }

  lemma RestKeptOrLost(loop: Loop, own: Stack, s: Stack, mid: Stack, rest: Body, d: nat, x: nat)
    requires own != [] && own[|own| - 1] == Some(Program(x)) && own <= s && |own| < d
    requires KeptOrLost(own, s, mid, x) && Count(mid, Program(x)) <= Count(s, Program(x))
    ensures KeptOrLost(own, s, Leaves(loop, mid, rest, d), x)
    decreases rest, 1
  {
    LeavesCounts(loop, mid, rest, d, x);
    if own <= mid {
      LeavesKeptOrLost(loop, own, mid, rest, d, x);
    }
  }

  // The next data line of a call of `w` is attributed to it: above `outer`, after `b`, at depth `d`.
  ghost predicate Right(loop: Loop, outer: Stack, w: nat, b: Body, d: nat) {
    Top(After(loop, outer + [Some(Program(w))], Render(b, d + 1))) == Some(Program(w))
  }

  // All that the call and its callees have printed left the stack as it was.
  ghost predicate Restored(loop: Loop, outer: Stack, w: nat, b: Body, d: nat) {
    After(loop, outer + [Some(Program(w))], Render(b, d + 1)) == outer + [Some(Program(w))]
  }

  lemma RightMeans(loop: Loop, outer: Stack, w: nat, b: Body, d: nat)
    ensures Right(loop, outer, w, b, d) <==> Top(Leaves(loop, outer + [Some(Program(w))], b, d + 1)) == Some(Program(w))
    ensures Restored(loop, outer, w, b, d) <==>
            Leaves(loop, outer + [Some(Program(w))], b, d + 1) == outer + [Some(Program(w))]
  {
    LeavesIsAfter(loop, outer + [Some(Program(w))], b, d + 1);
  }

  /**
   Whatever stack a call starts on: unless its program stands there already, its next data line is
   attributed to it exactly if all that the call and its callees have printed left the stack as it was.
   */
  lemma RightExactlyIfRestored(loop: Loop, outer: Stack, w: nat, b: Body, d: nat)
    requires d > |outer| && Some(Program(w)) !in outer
    ensures Right(loop, outer, w, b, d) <==> Restored(loop, outer, w, b, d)
  {
    RightMeans(loop, outer, w, b, d);
    OwnOnTopExactly(loop, outer, w, b, d);
  }

  lemma OwnOnTopExactly(loop: Loop, outer: Stack, w: nat, b: Body, d: nat)
    requires d > |outer| && Some(Program(w)) !in outer
    ensures var own := outer + [Some(Program(w))];
            Top(Leaves(loop, own, b, d + 1)) == Some(Program(w)) <==> Leaves(loop, own, b, d + 1) == own
  {
    CountOwn(outer, w);
    OwnOnTop(loop, outer + [Some(Program(w))], b, d + 1, w);
  }

  lemma OwnOnTop(loop: Loop, own: Stack, b: Body, d: nat, w: nat)
    requires own != [] && own[|own| - 1] == Some(Program(w)) && |own| < d && Count(own, Program(w)) == 1
    ensures Top(Leaves(loop, own, b, d)) == Some(Program(w)) <==> Leaves(loop, own, b, d) == own
  {
    LeavesKeptOrLost(loop, own, own, b, d, w);
    LeavesCounts(loop, own, b, d, w);
    OnlyOwnOnTop(own, Leaves(loop, own, b, d), w);
  }

  lemma OnlyOwnOnTop(own: Stack, r: Stack, w: nat)
    requires own != [] && own[|own| - 1] == Some(Program(w))
    requires own <= r || Count(r, Program(w)) == 0
    requires Count(r, Program(w)) <= Count(own, Program(w)) == 1
    ensures Top(r) == Some(Program(w)) <==> r == own
  {
    if Top(r) == Some(Program(w)) {
      CountMember(r, |r| - 1, Program(w));
      if |r| > |own| {
        CountDrop(r, |own|, |r| - 1, Program(w));
      }
    }
  }

  lemma CountOwn(outer: Stack, w: nat)
    requires Some(Program(w)) !in outer
    ensures Count(outer + [Some(Program(w))], Program(w)) == 1
  {
    CountNone(outer, Program(w));
    CountSum(outer, [Some(Program(w))], Program(w));
    CountOne(Some(Program(w)), Program(w));
  }

  // ----- What a call must not print, line by line -----

  /**
   Every message that the call or a call inside it has printed and that is taken for an invoke claims
   to be deeper than the call that printed it. `f` is the depth of the call that `b` belongs to.
   */
  predicate Careful(loop: Loop, b: Body, f: nat) {
    match b
    case End => true
    case Say(_, _, rest) => Careful(loop, rest, f)
    case Print(r, rest) => (Announced(loop, r).None? || Announced(loop, r).value.depth > f) && Careful(loop, rest, f)
    case Sub(_, inner, rest) => Careful(loop, inner, f + 1) && Careful(loop, rest, f)
  }

  // A message as heard by a machine that knows nothing of the first `f` depths.
  function Lowered(r: Reading, f: nat): Reading {
    if r.invoke.Some? && r.invoke.value.depth > f
    then r.(invoke := Some(r.invoke.value.(depth := r.invoke.value.depth - f))) else r
  }

  /** What the call's own messages since the last call it made have left above its entry. */
  function Above(loop: Loop, f: nat, t: Stack, b: Body): Stack
    decreases b
  {
    match b
    case End => t
    case Say(_, _, rest) => Above(loop, f, t, rest)
    case Print(r, rest) => Above(loop, f, Hear(loop, t, Lowered(r, f)), rest)
    case Sub(_, _, rest) => Above(loop, f, [], rest)
  }

  ghost predicate NoPrograms(s: Stack) {
    forall k :: 0 <= k < |s| ==> s[k].None? || s[k].value.Words?
  }

  lemma ResizeAbove(loop: Loop, c: Stack, t: Stack, n: nat)
    requires n >= |c|
    ensures Resize(loop, c + t, n) == c + Resize(loop, t, n - |c|)
  {
  }

  lemma PushAbove(loop: Loop, c: Stack, t: Stack, y: Id, depth: nat)
    requires depth > |c|
    ensures Push(loop, c + t, y, depth) == c + Push(loop, t, y, depth - |c|)
  {
    ResizeAbove(loop, c, t, depth - 1);
  }

  lemma PushNoProgram(loop: Loop, t: Stack, text: nat, depth: nat)
    requires NoPrograms(t)
    ensures NoPrograms(Push(loop, t, Words(text), depth))
  {
    var n := if depth > 0 then depth - 1 else 0;
    if n > |t| {
      HolesAreEmpty(n - |t|);
    }
  }

  lemma CutAbove(c: Stack, t: Stack, text: nat)
    requires AllPrograms(c)
    ensures Cut(c + t, Words(text)) == c + Cut(t, Words(text))
  {
    var k := CutIsPrefix(c + t, Words(text));
    var j := CutIsPrefix(t, Words(text));
    assert forall i :: 0 <= i < |t| ==> (c + t)[|c| + i] == t[i];
    assert forall i :: |c| <= i < |c + t| ==> (c + t)[i] == t[i - |c|];
    assert k == |c| + j;
  }

  lemma CutNoProgram(t: Stack, y: Id)
    requires NoPrograms(t)
    ensures NoPrograms(Cut(t, y))
  {
    var k := CutIsPrefix(t, y);
  }

  // What a message announces, then what it ends.
  function Announce(loop: Loop, s: Stack, r: Reading): Stack {
    match Announced(loop, r)
    case Some(a) => Push(loop, s, Words(a.text), a.depth)
    case None => s
  }

  lemma AnnounceAbove(loop: Loop, c: Stack, t: Stack, r: Reading)
    requires NoPrograms(t) && (Announced(loop, r).None? || Announced(loop, r).value.depth > |c|)
    ensures Announce(loop, c + t, r) == c + Announce(loop, t, Lowered(r, |c|)) && NoPrograms(Announce(loop, t, Lowered(r, |c|)))
  {
    if Announced(loop, r).Some? {
      var a := Announced(loop, r).value;
      PushAbove(loop, c, t, Words(a.text), a.depth);
      PushNoProgram(loop, t, a.text, a.depth - |c|);
    }
  }

  lemma HearIs(loop: Loop, s: Stack, r: Reading)
    ensures Hear(loop, s, r) ==
            match Ended(loop, r) case Some(t) => Cut(Announce(loop, s, r), Words(t)) case None => Announce(loop, s, r)
  {
  }

  lemma HearAbove(loop: Loop, c: Stack, t: Stack, r: Reading)
    requires AllPrograms(c) && NoPrograms(t) && (Announced(loop, r).None? || Announced(loop, r).value.depth > |c|)
    ensures Hear(loop, c + t, r) == c + Hear(loop, t, Lowered(r, |c|)) && NoPrograms(Hear(loop, t, Lowered(r, |c|)))
  {
    var low := Lowered(r, |c|);
    var mid := Announce(loop, t, low);
    AnnounceAbove(loop, c, t, r);
    HearIs(loop, c + t, r);
    HearIs(loop, t, low);
    assert Ended(loop, low) == Ended(loop, r);
    if Ended(loop, r).Some? {
      CutAbove(c, mid, Ended(loop, r).value);
      CutNoProgram(mid, Words(Ended(loop, r).value));
    }
  }

  // A real end finds the entry of its call: above it there are only words.
  lemma EndAbove(c: Stack, p: nat, t: Stack)
    requires NoPrograms(t)
    ensures Cut(c + [Some(Program(p))] + t, Program(p)) == c
  {
    var s := c + [Some(Program(p))] + t;
    var k := CutIsPrefix(s, Program(p));
    assert s[|c|] == Some(Program(p));
    assert forall i :: |c| < i < |s| ==> s[i] == t[i - |c| - 1];
    assert k == |c|;
  }

  // A careful body keeps the chain of calls, whatever stands above it.
  lemma {:induction false} CarefulLeaves(loop: Loop, c: Stack, t: Stack, b: Body)
    requires AllPrograms(c) && NoPrograms(t) && Careful(loop, b, |c|)
    ensures Leaves(loop, c + t, b, |c| + 1) == c + Above(loop, |c|, t, b) && NoPrograms(Above(loop, |c|, t, b))
    decreases b, 0
  {
    match b
    case End =>
    case Say(_, _, rest) => CarefulLeaves(loop, c, t, rest);
    case Print(r, rest) =>
      HearAbove(loop, c, t, r);
      CarefulLeaves(loop, c, Hear(loop, t, Lowered(r, |c|)), rest);
    case Sub(p, inner, rest) =>
      CallOver(loop, c, t, p, inner);
      CarefulLeaves(loop, c, [], rest);
      assert c + [] == c;
  }

  lemma CallOver(loop: Loop, c: Stack, t: Stack, p: nat, inner: Body)
    requires AllPrograms(c) && NoPrograms(t) && Careful(loop, inner, |c| + 1)
    ensures Cut(Leaves(loop, Push(loop, c + t, Program(p), |c| + 1), inner, |c| + 2), Program(p)) == c
    decreases inner, 1
  {
    var inside := c + [Some(Program(p))];
    OneMoreProgram(c, p);
    assert (c + t)[..|c|] == c;
    assert inside + [] == inside;
    CarefulLeaves(loop, inside, [], inner);
    EndAbove(c, p, Above(loop, |c| + 1, [], inner));
  }

  /** The program of the first call that prints a message that is taken for an invoke no deeper than itself. */
  function Culprit(loop: Loop, b: Body, f: nat, owner: nat): nat
    requires !Careful(loop, b, f)
  {
    match b
    case Say(_, _, rest) => Culprit(loop, rest, f, owner)
    case Print(r, rest) =>
      if Announced(loop, r).Some? && Announced(loop, r).value.depth <= f then owner else Culprit(loop, rest, f, owner)
    case Sub(p, inner, rest) =>
      if !Careful(loop, inner, f + 1) then Culprit(loop, inner, f + 1, p) else Culprit(loop, rest, f, owner)
  }

  // The culprit's own entry is lost at once, and with its end an earlier one of its program goes.
  lemma {:induction false} CulpritLoses(loop: Loop, c: Stack, t: Stack, b: Body, owner: nat)
    requires AllPrograms(c) && NoPrograms(t) && c != [] && c[|c| - 1] == Some(Program(owner)) && !Careful(loop, b, |c|)
    requires Count(c, Program(Culprit(loop, b, |c|, owner))) > 0
    ensures var x := Program(Culprit(loop, b, |c|, owner)); Count(Leaves(loop, c + t, b, |c| + 1), x) < Count(c, x)
    decreases b, 0
  {
    var x := Culprit(loop, b, |c|, owner);
    match b
    case Say(_, _, rest) => CulpritLoses(loop, c, t, rest, owner);
    case Print(r, rest) =>
      if Announced(loop, r).Some? && Announced(loop, r).value.depth <= |c| {
        StrayLoses(loop, c, t, r, owner);
        LeavesCounts(loop, Hear(loop, c + t, r), rest, |c| + 1, x);
      } else {
        HearAbove(loop, c, t, r);
        CulpritLoses(loop, c, Hear(loop, t, Lowered(r, |c|)), rest, owner);
      }
    case Sub(p, inner, rest) =>
      if Careful(loop, inner, |c| + 1) {
        CallOver(loop, c, t, p, inner);
        CulpritLoses(loop, c, [], rest, owner);
        assert c + [] == c;
      } else {
        CalleeLoses(loop, c, t, p, inner);
        LeavesCounts(loop, Cut(Leaves(loop, Push(loop, c + t, Program(p), |c| + 1), inner, |c| + 2), Program(p)), rest, |c| + 1, x);
      }
  }

  // A push no deeper than the call itself takes its entry away.
  lemma PushTakesOwn(loop: Loop, c: Stack, t: Stack, y: Id, depth: nat, owner: nat)
    requires c != [] && c[|c| - 1] == Some(Program(owner)) && y.Words? && depth <= |c|
    ensures Count(Push(loop, c + t, y, depth), Program(owner)) < Count(c, Program(owner))
  {
    var n := if depth > 0 then depth - 1 else 0;
    assert (c + t)[..n] == c[..n];
    CountDrop(c, n, |c| - 1, Program(owner));
    CountSum(c[..n], [Some(y)], Program(owner));
    CountOne(Some(y), Program(owner));
  }

  lemma StrayLoses(loop: Loop, c: Stack, t: Stack, r: Reading, owner: nat)
    requires c != [] && c[|c| - 1] == Some(Program(owner))
    requires Announced(loop, r).Some? && Announced(loop, r).value.depth <= |c|
    ensures Count(Hear(loop, c + t, r), Program(owner)) < Count(c, Program(owner))
  {
    var a := Announced(loop, r).value;
    PushTakesOwn(loop, c, t, Words(a.text), a.depth, owner);
    if Ended(loop, r).Some? {
      CutCounts(Push(loop, c + t, Words(a.text), a.depth), Words(Ended(loop, r).value), Program(owner));
    }
  }

  lemma CalleeLoses(loop: Loop, c: Stack, t: Stack, p: nat, inner: Body)
    requires AllPrograms(c) && NoPrograms(t) && !Careful(loop, inner, |c| + 1)
    requires Count(c, Program(Culprit(loop, inner, |c| + 1, p))) > 0
    ensures var x := Program(Culprit(loop, inner, |c| + 1, p));
            Count(Cut(Leaves(loop, Push(loop, c + t, Program(p), |c| + 1), inner, |c| + 2), Program(p)), x) < Count(c, x)
    decreases inner, 1
  {
    var x := Program(Culprit(loop, inner, |c| + 1, p));
    var inside := c + [Some(Program(p))];
    var ended := Leaves(loop, inside, inner, |c| + 2);
    OneMoreProgram(c, p);
    assert (c + t)[..|c|] == c && inside + [] == inside;
    CountSum(c, [Some(Program(p))], x);
    CountOne(Some(Program(p)), x);
    CulpritLoses(loop, inside, [], inner, p);
    CutCounts(ended, Program(p), x);
  }

  // ----- Exactly -----

  // Whatever chain of programs has made the call.
  ghost predicate AlwaysRight(loop: Loop, w: nat, b: Body, d: nat) {
    forall outer: Stack :: IsCaller(outer, d) ==> Right(loop, outer, w, b, d)
  }

  ghost predicate IsCaller(outer: Stack, d: nat) {
    |outer| + 1 == d && AllPrograms(outer)
  }

  // What a call may print: nothing taken for an invoke at its own depth or above, and nothing left standing.
  predicate Harmless(loop: Loop, b: Body, d: nat) {
    Careful(loop, b, d) && Above(loop, d, [], b) == []
  }

  lemma HarmlessIsRight(loop: Loop, outer: Stack, w: nat, b: Body, d: nat)
    requires IsCaller(outer, d) && Careful(loop, b, d)
    ensures Right(loop, outer, w, b, d) <==> Above(loop, d, [], b) == []
  {
    var own := outer + [Some(Program(w))];
    OneMoreProgram(outer, w);
    assert own + [] == own;
    CarefulLeaves(loop, own, [], b);
    RightMeans(loop, outer, w, b, d);
    OnTop(own, Above(loop, d, [], b), w);
  }

  lemma OnTop(own: Stack, t: Stack, w: nat)
    requires own != [] && own[|own| - 1] == Some(Program(w)) && NoPrograms(t)
    ensures Top(own + t) == Some(Program(w)) <==> t == []
  {
    if t == [] {
      assert own + t == own;
    } else {
      assert (own + t)[|own + t| - 1] == t[|t| - 1];
    }
  }

  lemma CarelessIsWrong(loop: Loop, outer: Stack, w: nat, b: Body, d: nat)
    requires IsCaller(outer, d) && !Careful(loop, b, d) && Some(Program(w)) !in outer
    requires Culprit(loop, b, d, w) == w || Some(Program(Culprit(loop, b, d, w))) in outer
    ensures !Right(loop, outer, w, b, d)
  {
    var own, x := outer + [Some(Program(w))], Culprit(loop, b, d, w);
    OneMoreProgram(outer, w);
    assert own + [] == own && own[d - 1] == Some(Program(w));
    if x == w {
      CountMember(own, d - 1, Program(x));
    } else {
      var k :| 0 <= k < |outer| && outer[k] == Some(Program(x));
      assert own[k] == outer[k];
      CountMember(own, k, Program(x));
    }
    CulpritLoses(loop, own, [], b, w);
    RightMeans(loop, outer, w, b, d);
    OwnOnTopExactly(loop, outer, w, b, d);
  }

  function Chained(n: nat, p: nat): (s: Stack)
    ensures |s| == n && AllPrograms(s) && forall k :: 0 <= k < n ==> s[k] == Some(Program(p))
  {
    if n == 0 then [] else Chained(n - 1, p) + [Some(Program(p))]
  }

  /**
   For every call that another made, and all that it and its callees have printed: its next data line
   is attributed to it under every chain of callers, permitted by the runtime or not, if and only if each
   message that is taken for an invoke claims to be deeper than the call that printed it, and those that
   the call itself printed since it last became the innermost one have left nothing standing.
   */
  lemma AlwaysRightExactly(loop: Loop, w: nat, b: Body, d: nat)
    requires d >= 2
    ensures AlwaysRight(loop, w, b, d) <==> Harmless(loop, b, d)
  {
    if Careful(loop, b, d) {
      forall outer: Stack | IsCaller(outer, d)
        ensures Right(loop, outer, w, b, d) <==> Above(loop, d, [], b) == []
      {
        HarmlessIsRight(loop, outer, w, b, d);
      }
      var some := Chained(d - 1, w);
      assert IsCaller(some, d);
    } else {
      var x := Culprit(loop, b, d, w);
      var outer := Chained(d - 1, if x == w then w + 1 else x);
      assert IsCaller(outer, d) && outer[0] in outer;
      CarelessIsWrong(loop, outer, w, b, d);
    }
  }

  predicate NoCalls(b: Body) {
    match b
    case End => true
    case Say(_, _, rest) => NoCalls(rest)
    case Print(_, rest) => NoCalls(rest)
    case Sub(_, _, _) => false
  }

  lemma {:induction false} OnlyOwnCulprit(loop: Loop, b: Body, d: nat, w: nat)
    requires NoCalls(b) && !Careful(loop, b, d)
    ensures Culprit(loop, b, d, w) == w
  {
    match b
    case Say(_, _, rest) => OnlyOwnCulprit(loop, rest, d, w);
    case Print(r, rest) =>
      if Announced(loop, r).None? || Announced(loop, r).value.depth > d {
        OnlyOwnCulprit(loop, rest, d, w);
      }
  }

  /**
   For a call that has made no call yet, at any depth and under each chain of callers without its own
   program: its next data line is attributed to it if and only if what it has printed is harmless.
   */
  lemma RightBeforeAnyCall(loop: Loop, outer: Stack, w: nat, b: Body, d: nat)
    requires IsCaller(outer, d) && Some(Program(w)) !in outer && NoCalls(b)
    ensures Right(loop, outer, w, b, d) <==> Harmless(loop, b, d)
  {
    if Careful(loop, b, d) {
      HarmlessIsRight(loop, outer, w, b, d);
    } else {
      OnlyOwnCulprit(loop, b, d, w);
      CarelessIsWrong(loop, outer, w, b, d);
    }
  }

  // ----- Since the writer became the innermost call -----

  // Own lines, none of which is taken for an end.
  predicate NeverEnds(loop: Loop, b: Body) {
    match b
    case End => true
    case Say(_, _, rest) => NeverEnds(loop, rest)
    case Print(r, rest) => Ended(loop, r).None? && NeverEnds(loop, rest)
    case Sub(_, _, _) => false
  }

  lemma {:induction false} OwnLinesLeave(loop: Loop, s: Stack, b: Body, d: nat, w: nat)
    requires NeverEnds(loop, b)
    ensures Quiet(loop, b) ==> Leaves(loop, s, b, d) == s
    ensures !Quiet(loop, b) ==> Top(Leaves(loop, s, b, d)) != Some(Program(w))
    decreases b
  {
    match b
    case End =>
    case Say(_, _, rest) => OwnLinesLeave(loop, s, rest, d, w);
    case Print(r, rest) =>
      OwnLinesLeave(loop, Hear(loop, s, r), rest, d, w);
      if Announced(loop, r).Some? {
        PushAddsOnly(loop, s, Words(Announced(loop, r).value.text), Announced(loop, r).value.depth);
      }
  }

  /**
   On any stack whatever that has the writer on top, such as every stack just after its own invoke:
   after some lines of its own, none taken for an end, it is still on top if and only if none of them
   was taken for an invoke.
   */
  lemma StillOnTopExactly(loop: Loop, s: Stack, b: Body, d: nat, w: nat)
    requires Top(s) == Some(Program(w)) && NeverEnds(loop, b)
    ensures Top(After(loop, s, Render(b, d))) == Some(Program(w)) <==> NoneAnnounces(loop, Render(b, d))
  {
    LeavesIsAfter(loop, s, b, d);
    OwnLinesLeave(loop, s, b, d, w);
    QuietMeans(loop, b, d);
  }
}
