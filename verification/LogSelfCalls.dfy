/**
 Exactly when a data line is attributed to its writer, on the stack of a chain of calls. A program may
 call itself, and may not otherwise call a program that is running.
 */
module LogSelfCalls {
  import opened Prelude
  import opened LogStacks
  import opened LogChains
  import opened LogMessages
  import opened LogEntries
  import opened LogShifts

  // ----- No program of the chain is called -----

  lemma LeavesNoProgram(loop: Loop, b: Body, d: nat)
    requires d > 0
    ensures NoPrograms(Leaves(loop, [], b, d))
  {
    AllRemains([]);
    var k := LeavesRemain(loop, [], [], 0, b, d);
    forall j | 0 <= j < |Leaves(loop, [], b, d)|
      ensures !IsProgram(Leaves(loop, [], b, d)[j])
    {
    }
  }

  /**
   For a fixed chain of callers without the writer's program, none of whose programs, nor the writer's,
   is called: the writer's next data line is attributed to it if and only if no message of its own or of
   its callees is taken for an invoke at its depth or above, and all of them, read by themselves with
   depths counted from the writer, leave nothing standing.
   */
  lemma RightWithoutReentry(loop: Loop, outer: Stack, w: nat, b: Body, d: nat)
    requires IsCaller(outer, d) && Some(Program(w)) !in outer && Apart(b, outer + [Some(Program(w))])
    ensures Right(loop, outer, w, b, d) <==> Deeper(loop, b, d) && Leaves(loop, [], Lower(b, d), 1) == []
  {
    var own := outer + [Some(Program(w))];
    OneMoreProgram(outer, w);
    RightMeans(loop, outer, w, b, d);
    assert own + [] == own && own[..d - 1] == outer;
    if Deeper(loop, b, d) {
      LeavesApart(loop, own, [], b, d + 1, 1);
      LeavesNoProgram(loop, Lower(b, d), 1);
      OnTop(own, Leaves(loop, [], Lower(b, d), 1), w);
    } else {
      LowLoses(loop, own, [], b, d + 1, 1, w);
      NoCountNotOnTop(Leaves(loop, own, b, d + 1), w);
    }
  }

  // ----- The writer may stand on the chain before -----

  // The depth down to which the messages leave the chain as it was.
  function Floor(loop: Loop, b: Body, d: nat): (f: nat)
    ensures f <= d
  {
    match b
    case End => d
    case Say(_, _, rest) => Floor(loop, rest, d)
    case Print(r, rest) =>
      if Announced(loop, r).Some? && Announced(loop, r).value.depth <= Floor(loop, rest, d)
      then Announced(loop, r).value.depth - 1 else Floor(loop, rest, d)
    case Sub(_, inner, rest) => Floor(loop, inner, Floor(loop, rest, d))
  }

  lemma {:induction false} DeeperThan(loop: Loop, b: Body, f: nat, g: nat)
    requires Deeper(loop, b, g) && f <= g
    ensures Deeper(loop, b, f)
  {
    match b
    case End =>
    case Say(_, _, rest) => DeeperThan(loop, rest, f, g);
    case Print(_, rest) => DeeperThan(loop, rest, f, g);
    case Sub(_, inner, rest) =>
      DeeperThan(loop, inner, f, g);
      DeeperThan(loop, rest, f, g);
  }

  lemma {:induction false} FloorIsExact(loop: Loop, b: Body, d: nat)
    ensures Deeper(loop, b, Floor(loop, b, d))
    ensures Floor(loop, b, d) < d ==> !Deeper(loop, b, Floor(loop, b, d) + 1)
  {
    match b
    case End =>
    case Say(_, _, rest) => FloorIsExact(loop, rest, d);
    case Print(r, rest) =>
      FloorIsExact(loop, rest, d);
      DeeperThan(loop, rest, Floor(loop, b, d), Floor(loop, rest, d));
    case Sub(_, inner, rest) =>
      FloorIsExact(loop, rest, d);
      FloorIsExact(loop, inner, Floor(loop, rest, d));
      DeeperThan(loop, rest, Floor(loop, b, d), Floor(loop, rest, d));
  }

  // An announcement at depth `f + 1` or above leaves no program above the first `f` entries.
  lemma {:induction false} LowRemains(loop: Loop, s: Stack, r: Stack, k: nat, b: Body, d: nat, f: nat) returns (j: nat)
    requires Remains(s, r, k) && d > 0 && !Deeper(loop, b, f + 1)
    ensures j <= f && Remains(s, Leaves(loop, r, b, d), j)
    decreases b
  {
    match b
    case Say(_, _, rest) => j := LowRemains(loop, s, r, k, rest, d, f);
    case Print(heard, rest) =>
      var i := HearRemains(loop, s, r, k, heard);
      if Announced(loop, heard).Some? && Announced(loop, heard).value.depth <= f + 1 {
        j := LeavesRemain(loop, s, Hear(loop, r, heard), i, rest, d);
      } else {
        j := LowRemains(loop, s, Hear(loop, r, heard), i, rest, d, f);
      }
    case Sub(p, inner, rest) =>
      CallThenRest(loop, r, p, inner, rest, d);
      var kept := Resize(loop, r, d - 1);
      var inside := kept + [Some(Program(p))];
      var i := ResizeRemains(loop, s, r, k, d - 1);
      AllRemains(inside);
      if Deeper(loop, inner, f + 1) {
        var n := LeavesRemain(loop, inside, inside, |inside|, inner, d + 1);
        var m := EndRemains(s, kept, i, p, Leaves(loop, inside, inner, d + 1), n);
        j := LowRemains(loop, s, OneCall(loop, r, p, inner, d), m, rest, d, f);
      } else {
        var n := LowRemains(loop, inside, inside, |inside|, inner, d + 1, f);
        var m := EndRemains(s, kept, i, p, Leaves(loop, inside, inner, d + 1), n);
        j := LeavesRemain(loop, s, OneCall(loop, r, p, inner, d), m, rest, d);
      }
  }

  lemma NothingAboveFloor(loop: Loop, own: Stack, b: Body, f: nat) returns (j: nat)
    requires f == Floor(loop, b, |own|)
    ensures j <= f && Remains(own, Leaves(loop, own, b, |own| + 1), j)
  {
    FloorIsExact(loop, b, |own|);
    AllRemains(own);
    if f < |own| {
      j := LowRemains(loop, own, own, |own|, b, |own| + 1, f);
    } else {
      j := LeavesRemain(loop, own, own, |own|, b, |own| + 1);
    }
  }

  lemma TopAtFloor(c: Stack, rest: Stack, j: nat, s: Stack, w: nat)
    requires j <= |c| && Remains(s, c + rest, j)
    ensures Top(c + rest) == Some(Program(w)) <==> rest == [] && Top(c) == Some(Program(w))
  {
    if rest == [] {
      assert c + rest == c;
    } else {
      assert (c + rest)[|c + rest| - 1] == rest[|rest| - 1];
      assert !IsProgram((c + rest)[|c + rest| - 1]);
    }
  }

  // What the messages leave above their floor.
  function AboveFloor(loop: Loop, own: Stack, b: Body, f: nat): Stack
    requires f <= |own|
  {
    Leaves(loop, own[f..], Lower(b, f), |own| - f + 1)
  }

  lemma SplitLeaves(loop: Loop, c: Stack, t: Stack, b: Body)
    requires AllPrograms(c) && Deeper(loop, b, |c|) && Apart(b, c)
    ensures Leaves(loop, c + t, b, |c| + |t| + 1) == c + Leaves(loop, t, Lower(b, |c|), |t| + 1)
  {
    LeavesApart(loop, c, t, b, |c| + |t| + 1, |t| + 1);
  }

  lemma LeavesAtFloor(loop: Loop, own: Stack, b: Body, f: nat)
    requires AllPrograms(own) && Apart(b, own) && f == Floor(loop, b, |own|)
    ensures Leaves(loop, own, b, |own| + 1) == own[..f] + AboveFloor(loop, own, b, f)
  {
    FloorIsExact(loop, b, |own|);
    ApartPrefix(b, own, f);
    SplitAt(loop, own, own[..f], own[f..], b);
  }

  lemma SplitAt(loop: Loop, own: Stack, c: Stack, t: Stack, b: Body)
    requires own == c + t && AllPrograms(c) && Deeper(loop, b, |c|) && Apart(b, c)
    ensures Leaves(loop, own, b, |own| + 1) == c + Leaves(loop, t, Lower(b, |c|), |own| - |c| + 1)
  {
    SplitLeaves(loop, c, t, b);
  }

  lemma TopIsAtFloor(loop: Loop, own: Stack, b: Body, f: nat, w: nat)
    requires AllPrograms(own) && Apart(b, own) && f == Floor(loop, b, |own|)
    ensures Top(Leaves(loop, own, b, |own| + 1)) == Some(Program(w)) <==>
            AboveFloor(loop, own, b, f) == [] && Top(own[..f]) == Some(Program(w))
  {
    LeavesAtFloor(loop, own, b, f);
    var j := NothingAboveFloor(loop, own, b, f);
    TopAtFloor(own[..f], AboveFloor(loop, own, b, f), j, own, w);
  }

  /**
   For a fixed chain on which the writer's program may stand several times, and none of whose programs is
   called: the next data line is attributed to the writer if and only if the entry at the floor of its and
   its callees' messages, its own or that of an earlier call, is one of its program, and nothing is left
   above it.
   */
  lemma RightAtFloor(loop: Loop, outer: Stack, w: nat, b: Body, f: nat)
    requires AllPrograms(outer) && Apart(b, outer + [Some(Program(w))]) && f == Floor(loop, b, |outer| + 1)
    ensures var own := outer + [Some(Program(w))];
            Right(loop, outer, w, b, |outer| + 1) <==>
            AboveFloor(loop, own, b, f) == [] && Top(own[..f]) == Some(Program(w))
  {
    RightOnOwn(loop, outer, w, b, outer + [Some(Program(w))]);
    OneMoreProgram(outer, w);
    TopIsAtFloor(loop, outer + [Some(Program(w))], b, f, w);
  }

  lemma {:induction false} ApartPrefix(b: Body, c: Stack, f: nat)
    requires Apart(b, c) && f <= |c|
    ensures Apart(b, c[..f])
  {
    match b
    case End =>
    case Say(_, _, rest) => ApartPrefix(rest, c, f);
    case Print(_, rest) => ApartPrefix(rest, c, f);
    case Sub(_, inner, rest) =>
      ApartPrefix(inner, c, f);
      ApartPrefix(rest, c, f);
  }

  // A message that reads as an invoke at depth 2, then one that reads as its end.
  function Stray(text: nat): Body {
    Print(Heard(Some(Announcement(text, 2)), true, None, false), Print(Heard(None, false, Some(text), true), End))
  }

  /** A program that has called itself may lose its own entry and yet be on top: the earlier call stands for it. */
  lemma SelfCallIsForgiven(loop: Loop, w: nat, text: nat)
    ensures var outer: Stack := [Some(Program(w))];
            Right(loop, outer, w, Stray(text), 2) && !Restored(loop, outer, w, Stray(text), 2)
  {
    var outer: Stack := [Some(Program(w))];
    var own := outer + [Some(Program(w))];
    RightMeans(loop, outer, w, Stray(text), 2);
    var first: Reading := Heard(Some(Announcement(text, 2)), true, None, false);
    var second: Reading := Heard(None, false, Some(text), true);
    assert own[..1] == outer;
    assert Hear(loop, own, first) == outer + [Some(Words(text))];
    assert (outer + [Some(Words(text))])[..1] == outer;
    assert Hear(loop, outer + [Some(Words(text))], second) == outer;
    assert Leaves(loop, outer, End, 3) == outer;
    assert Leaves(loop, own, Stray(text), 3) == outer;
  }

  // ----- Every chain that the runtime permits -----

  predicate MayBeCalled(c: Stack, p: nat) {
    Some(Program(p)) !in c || Top(c) == Some(Program(p))
  }

  /** A running program is called by itself only. */
  predicate Permitted(b: Body, c: Stack) {
    match b
    case End => true
    case Say(_, _, rest) => Permitted(rest, c)
    case Print(_, rest) => Permitted(rest, c)
    case Sub(p, inner, rest) => MayBeCalled(c, p) && Permitted(inner, c + [Some(Program(p))]) && Permitted(rest, c)
  }

  predicate PermittedChain(c: Stack) {
    c == [] ||
    var last := c[|c| - 1];
    last.Some? && last.value.Program? && MayBeCalled(c[..|c| - 1], last.value.key) && PermittedChain(c[..|c| - 1])
  }

  function Row(w: nat, m: nat): Stack {
    if m == 0 then [] else Row(w, m - 1) + [Some(Program(w))]
  }

  // How often in a row the program stands on top.
  function InARow(c: Stack, w: nat): (m: nat)
    ensures m <= |c|
  {
    if Top(c) == Some(Program(w)) then InARow(c[..|c| - 1], w) + 1 else 0
  }

  lemma {:induction false} RowIs(w: nat, m: nat)
    ensures |Row(w, m)| == m && forall k :: 0 <= k < m ==> Row(w, m)[k] == Some(Program(w))
  {
    if m > 0 {
      RowIs(w, m - 1);
    }
  }

  lemma {:induction false} ChainSplits(c: Stack, w: nat)
    requires PermittedChain(c) && Top(c) == Some(Program(w))
    ensures var m := InARow(c, w); m > 0 && c == c[..|c| - m] + Row(w, m) && Some(Program(w)) !in c[..|c| - m]
    ensures AllPrograms(c)
  {
    var before := c[..|c| - 1];
    assert c == before + [Some(Program(w))];
    PermittedIsPrograms(before);
    if Top(before) == Some(Program(w)) {
      ChainSplits(before, w);
      var m := InARow(before, w);
      assert before[..|before| - m] == c[..|c| - m - 1];
      Regroup(before[..|before| - m], Row(w, m), [Some(Program(w))]);
    } else {
      assert InARow(before, w) == 0 && Row(w, 0) == [] && Row(w, 1) == [] + [Some(Program(w))] == [Some(Program(w))];
      assert Row(w, InARow(c, w)) == [Some(Program(w))];
    }
  }

  lemma {:induction false} PermittedIsPrograms(c: Stack)
    requires PermittedChain(c)
    ensures AllPrograms(c)
  {
    if c != [] {
      PermittedIsPrograms(c[..|c| - 1]);
      assert c == c[..|c| - 1] + [c[|c| - 1]];
    }
  }

  // What is called above a chain `c + u` is not called below `u`.
  lemma {:induction false} PermittedIsApart(b: Body, c: Stack, u: Stack)
    requires u != [] && Permitted(b, c + u) && forall e :: e in u ==> e !in c
    ensures Apart(b, c)
    decreases b
  {
    match b
    case End =>
    case Say(_, _, rest) => PermittedIsApart(rest, c, u);
    case Print(_, rest) => PermittedIsApart(rest, c, u);
    case Sub(p, inner, rest) =>
      CalledIsApart(c, u, p);
      Regroup(c, u, [Some(Program(p))]);
      PermittedIsApart(inner, c, u + [Some(Program(p))]);
      PermittedIsApart(rest, c, u);
  }

  lemma StandsBelow(c: Stack, u: Stack, e: Option<Id>)
    requires e in c
    ensures e in c + u
  {
    var k :| 0 <= k < |c| && c[k] == e;
    assert (c + u)[k] == e;
  }

  lemma TopOfSum(c: Stack, u: Stack)
    requires u != []
    ensures Top(c + u) == u[|u| - 1] && u[|u| - 1] in u
  {
    assert (c + u)[|c + u| - 1] == u[|u| - 1];
  }

  lemma CalledIsApart(c: Stack, u: Stack, p: nat)
    requires u != [] && MayBeCalled(c + u, p) && forall e :: e in u ==> e !in c
    ensures Some(Program(p)) !in c
  {
    TopOfSum(c, u);
    if Some(Program(p)) in c {
      StandsBelow(c, u, Some(Program(p)));
    }
  }

  lemma {:induction false} DeeperThanNone(loop: Loop, b: Body)
    ensures Deeper(loop, b, 0)
  {
    match b
    case End =>
    case Say(_, _, rest) => DeeperThanNone(loop, rest);
    case Print(_, rest) => DeeperThanNone(loop, rest);
    case Sub(_, inner, rest) =>
      DeeperThanNone(loop, inner);
      DeeperThanNone(loop, rest);
  }

  lemma RowKept(loop: Loop, c: Stack, w: nat, row: Stack, b: Body, d: nat, e: nat)
    requires AllPrograms(c) && Some(Program(w)) !in c && Apart(b, c) && Deeper(loop, b, |c|) && d == |c| + e && e > 0
    ensures Top(Leaves(loop, c + row, b, d)) == Some(Program(w)) <==> Top(Leaves(loop, row, Lower(b, |c|), e)) == Some(Program(w))
  {
    LeavesApart(loop, c, row, b, d, e);
    TopAbove(c, Leaves(loop, row, Lower(b, |c|), e), w);
  }

  lemma NotDeeperIsAbove(loop: Loop, b: Body, c: Stack)
    requires !Deeper(loop, b, |c|)
    ensures c != []
  {
    DeeperThanNone(loop, b);
  }

  lemma RowLost(loop: Loop, c: Stack, w: nat, row: Stack, b: Body, d: nat, e: nat)
    requires AllPrograms(c) && Some(Program(w)) !in c && Apart(b, c) && !Deeper(loop, b, |c|) && d == |c| + e && e > 0
    ensures Top(Leaves(loop, c + row, b, d)) != Some(Program(w))
  {
    NotDeeperIsAbove(loop, b, c);
    LowLoses(loop, c, row, b, d, e, w);
    NoCountNotOnTop(Leaves(loop, c + row, b, d), w);
  }

  // The lines, read above the writer's own calls in a row, leave its program on top.
  ghost predicate RowStays(loop: Loop, depth: nat, w: nat, m: nat, b: Body)
    requires m <= depth
  {
    Deeper(loop, b, depth - m) && Top(Leaves(loop, Row(w, m), Lower(b, depth - m), m + 1)) == Some(Program(w))
  }

  // The part `c` of the chain does not matter, unless an announcement reaches down to it.
  lemma RowDecides(loop: Loop, own: Stack, c: Stack, w: nat, m: nat, b: Body)
    requires own == c + Row(w, m) && m == |Row(w, m)| && AllPrograms(c) && Some(Program(w)) !in c && Apart(b, c)
    ensures Top(Leaves(loop, own, b, |own| + 1)) == Some(Program(w)) <==> RowStays(loop, |own|, w, m, b)
  {
    if Deeper(loop, b, |c|) {
      RowKept(loop, c, w, Row(w, m), b, |own| + 1, m + 1);
    } else {
      RowLost(loop, c, w, Row(w, m), b, |own| + 1, m + 1);
    }
  }

  lemma OwnRowDecides(loop: Loop, own: Stack, w: nat, b: Body)
    requires Top(own) == Some(Program(w)) && PermittedChain(own) && Permitted(b, own)
    ensures InARow(own, w) > 0
    ensures Top(Leaves(loop, own, b, |own| + 1)) == Some(Program(w)) <==> RowStays(loop, |own|, w, InARow(own, w), b)
  {
    var m := InARow(own, w);
    var c := own[..|own| - m];
    ChainSplits(own, w);
    RowIs(w, m);
    PermittedIsApart(b, c, Row(w, m));
    RowDecides(loop, own, c, w, m, b);
  }

  lemma RightOnOwn(loop: Loop, outer: Stack, w: nat, b: Body, own: Stack)
    requires own == outer + [Some(Program(w))]
    ensures Right(loop, outer, w, b, |own|) <==> Top(Leaves(loop, own, b, |own| + 1)) == Some(Program(w))
  {
    LeavesIsAfter(loop, own, b, |own| + 1);
  }

  /**
   On every chain of calls that the runtime permits, self-calls included: the next data line is attributed
   to its writer if and only if no message of the call or its callees is taken for an invoke at the depth
   of the calls below the writer's own in a row, and, read by themselves with depths counted from there,
   they leave the writer's program on top.
   */
  lemma ChainDecides(loop: Loop, outer: Stack, w: nat, b: Body, own: Stack)
    requires own == outer + [Some(Program(w))] && PermittedChain(own) && Permitted(b, own)
    ensures InARow(own, w) > 0
    ensures Right(loop, outer, w, b, |own|) <==> RowStays(loop, |own|, w, InARow(own, w), b)
  {
    RightOnOwn(loop, outer, w, b, own);
    OwnRowDecides(loop, own, w, b);
  }
}
