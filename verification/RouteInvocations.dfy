/**
 The invocations of a transaction in the order in which they ran, and which of them ran inside
 which. The trees are the truth; the flat list is what a node reports.
 */
module RouteInvocations {
  import opened Prelude
  import WireFormat
  import MintPropagation
  import opened CallForests

  type Account = MintPropagation.Account

  // The default account. Its address is also the system program's.
  const ZERO: Account := MintPropagation.ZERO

  datatype Program = Token | Token2022 | System | Other(id: nat)

  datatype Position = Position(outer: nat, inner: Option<nat>, height: Option<nat>)

  datatype Body = Body(program: Program, accounts: seq<Account>, data: seq<Byte>)
  {
    // A missing account reads as the default one.
    function AccountAt(i: nat): Account {
      if i < |accounts| then accounts[i] else ZERO
    }

    predicate IsToken() {
      program == Token || program == Token2022
    }

    predicate IsChecked() {
      IsToken() && |data| >= 10 && data[0] == 12 && |accounts| >= 4
    }

    predicate IsWithFee() {
      program == Token2022 && |data| >= 19 && data[0] == 26 && data[1] == 1 && |accounts| >= 4
    }

    // A transfer that names no mint.
    predicate IsPlain() {
      IsToken() && |data| >= 9 && data[0] == 3 && |accounts| >= 3
    }

    predicate IsInitialize() {
      && IsToken() && |accounts| >= 2
      && ((|data| == 1 && data[0] == 1) || (|data| == 33 && (data[0] == 16 || data[0] == 18)))
    }

    // Lamports paid through the system program.
    predicate IsPayment() {
      program == System && |data| == 12 && WireFormat.UintOf(data[..4]) == 2 && |accounts| >= 2
    }

    function U64(offset: nat): nat
      requires offset + 8 <= |data|
    {
      WireFormat.UintOf(data[offset..offset + 8])
    }
  }

  datatype Invocation = Invocation(position: Position, body: Body)

  predicate Descendant(parent: Position, child: Position) {
    && parent.outer == child.outer
    && (match parent.inner
        case None => child.inner.Some?
        case Some(i) =>
          && child.inner.Some? && child.inner.value > i
          && parent.height.Some? && child.height.Some? && child.height.value > parent.height.value)
  }

  // The scan: descendants of `p` up to the first invocation that is none.
  function DescendantRun(p: Position, ixs: seq<Invocation>): seq<Invocation> {
    if ixs == [] || !Descendant(p, ixs[0].position) then [] else [ixs[0]] + DescendantRun(p, ixs[1..])
  }

  /** What ran inside invocation `i`, as the analysis collects it. */
  method Children(ixs: seq<Invocation>, i: nat) returns (children: seq<Invocation>)
    requires i < |ixs|
    ensures children == DescendantRun(ixs[i].position, ixs[i + 1..])
  {
    children := [];
    ghost var p, later := ixs[i].position, ixs[i + 1..];
    for j := i + 1 to |ixs|
      invariant DescendantRun(p, later) == children + DescendantRun(p, ixs[j..])
    {
      if !Descendant(ixs[i].position, ixs[j].position) {
        assert DescendantRun(p, ixs[j..]) == [];
        return;
      }
      assert ixs[j..][1..] == ixs[j + 1..];
      children := children + [ixs[j]];
    }
  }

  // ----- Trees of calls -----

  type Trees = Forest<Body>

  // Calls in execution order, numbered from `idx` inside outer instruction `o`, at height `h`.
  function Flat(calls: Trees, o: nat, idx: nat, h: nat): seq<Invocation> {
    if calls.Nil? then []
    else
      [Invocation(Position(o, Some(idx), Some(h)), calls.call.body)]
      + Flat(calls.call.inner, o, idx + 1, h + 1)
      + Flat(calls.rest, o, idx + 1 + Size(calls.call.inner), h)
  }

  // The three parts of a list of calls: the first, what ran inside it, and the calls after it.
  function Root(calls: Trees, o: nat, idx: nat, h: nat): Invocation
    requires calls.Cons?
  {
    Invocation(Position(o, Some(idx), Some(h)), calls.call.body)
  }

  function Inside(calls: Trees, o: nat, idx: nat, h: nat): seq<Invocation>
    requires calls.Cons?
  {
    Flat(calls.call.inner, o, idx + 1, h + 1)
  }

  function Later(calls: Trees, o: nat, idx: nat, h: nat): seq<Invocation>
    requires calls.Cons?
  {
    Flat(calls.rest, o, idx + 1 + Size(calls.call.inner), h)
  }

  lemma FlatParts(calls: Trees, o: nat, idx: nat, h: nat)
    requires calls.Cons?
    ensures Flat(calls, o, idx, h) == [Root(calls, o, idx, h)] + Inside(calls, o, idx, h) + Later(calls, o, idx, h)
  {
  }

  // A transaction's outer instructions run at height 1 and what they call at height 2.
  function Transaction(outers: Trees, o: nat): seq<Invocation> {
    if outers.Nil? then []
    else
      [Invocation(Position(o, None, Some(1)), outers.call.body)]
      + Flat(outers.call.inner, o, 0, 2)
      + Transaction(outers.rest, o + 1)
  }

  // The `n`-th call in execution order.
  function Nth(calls: Trees, n: nat): Call<Body>
    requires n < Size(calls)
  {
    if n == 0 then calls.call
    else if n <= Size(calls.call.inner) then Nth(calls.call.inner, n - 1)
    else Nth(calls.rest, n - 1 - Size(calls.call.inner))
  }

  // What a call made, and what that made: as invocations, numbered as they ran.
  function Subtree(calls: Trees, o: nat, idx: nat, h: nat, n: nat): seq<Invocation>
    requires n < Size(calls)
  {
    if n == 0 then Flat(calls.call.inner, o, idx + 1, h + 1)
    else if n <= Size(calls.call.inner) then Subtree(calls.call.inner, o, idx + 1, h + 1, n - 1)
    else Subtree(calls.rest, o, idx + 1 + Size(calls.call.inner), h, n - 1 - Size(calls.call.inner))
  }

  function SubtreeOf(outers: Trees, o: nat, n: nat): seq<Invocation>
    requires n < Size(outers)
  {
    if n == 0 then Flat(outers.call.inner, o, 0, 2)
    else if n <= Size(outers.call.inner) then Subtree(outers.call.inner, o, 0, 2, n - 1)
    else SubtreeOf(outers.rest, o + 1, n - 1 - Size(outers.call.inner))
  }

  lemma {:induction false} FlatLength(calls: Trees, o: nat, idx: nat, h: nat)
    ensures |Flat(calls, o, idx, h)| == Size(calls)
  {
    if calls.Cons? {
      FlatLength(calls.call.inner, o, idx + 1, h + 1);
      FlatLength(calls.rest, o, idx + 1 + Size(calls.call.inner), h);
    }
  }

  lemma {:induction false} TransactionLength(outers: Trees, o: nat)
    ensures |Transaction(outers, o)| == Size(outers)
  {
    if outers.Cons? {
      FlatLength(outers.call.inner, o, 0, 2);
      TransactionLength(outers.rest, o + 1);
    }
  }

  // Everything in the list runs inside outer instruction `o`, from index `idx` on, at height `h` or above.
  ghost predicate RunsInside(ixs: seq<Invocation>, o: nat, idx: nat, h: nat) {
    forall k :: 0 <= k < |ixs| ==>
      var p := ixs[k].position;
      p.outer == o && p.inner.Some? && p.inner.value >= idx && p.height.Some? && p.height.value >= h
  }

  lemma RunsInsideJoin(a: seq<Invocation>, b: seq<Invocation>, o: nat, idx: nat, idx': nat, h: nat, h': nat)
    requires RunsInside(a, o, idx, h) && RunsInside(b, o, idx', h') && idx <= idx' && h' <= h
    ensures RunsInside(a + b, o, idx, h')
  {
  }

  lemma {:induction false} FlatRunsInside(calls: Trees, o: nat, idx: nat, h: nat)
    ensures RunsInside(Flat(calls, o, idx, h), o, idx, h)
  {
    if calls.Cons? {
      var own := [Invocation(Position(o, Some(idx), Some(h)), calls.call.body)];
      var inner := Flat(calls.call.inner, o, idx + 1, h + 1);
      var rest := Flat(calls.rest, o, idx + 1 + Size(calls.call.inner), h);
      FlatRunsInside(calls.call.inner, o, idx + 1, h + 1);
      FlatRunsInside(calls.rest, o, idx + 1 + Size(calls.call.inner), h);
      RunsInsideJoin(own, inner, o, idx, idx + 1, h, h);
      RunsInsideJoin(own + inner, rest, o, idx, idx + 1 + Size(calls.call.inner), h, h);
    }
  }

  // What follows ends the run of any call at height `h` or above in outer instruction `o`.
  ghost predicate Ends(after: seq<Invocation>, o: nat, h: nat) {
    after != [] ==>
      var p := after[0].position;
      p.outer != o || p.inner.None? || (p.height.Some? && p.height.value <= h)
  }

  ghost predicate AllDescend(p: Position, inside: seq<Invocation>) {
    forall k :: 0 <= k < |inside| ==> Descendant(p, inside[k].position)
  }

  lemma {:induction false} RunIsAll(p: Position, inside: seq<Invocation>, after: seq<Invocation>)
    requires AllDescend(p, inside)
    requires after != [] ==> !Descendant(p, after[0].position)
    ensures DescendantRun(p, inside + after) == inside
  {
    if inside == [] {
      assert inside + after == after;
    } else {
      RunIsAll(p, inside[1..], after);
      assert (inside + after)[1..] == inside[1..] + after;
    }
  }

  // The rest of the forest, or what follows it, ends the run of the calls before it.
  lemma RestEnds(calls: Trees, after: seq<Invocation>, o: nat, idx: nat, h: nat)
    requires Ends(after, o, h)
    ensures Ends(Flat(calls, o, idx, h) + after, o, h)
  {
  }

  lemma EndsHigher(after: seq<Invocation>, o: nat, h: nat)
    requires Ends(after, o, h)
    ensures Ends(after, o, h + 1)
  {
  }

  // The scan from position `n` of a list that is followed by `after`, and what it finds there.
  ghost predicate Collects(ixs: seq<Invocation>, after: seq<Invocation>, n: nat, body: Body, found: seq<Invocation>) {
    n < |ixs| && ixs[n].body == body && DescendantRun(ixs[n].position, ixs[n + 1..] + after) == found
  }

  lemma CollectsFirst(a: Invocation, b: seq<Invocation>, c: seq<Invocation>, after: seq<Invocation>)
    requires AllDescend(a.position, b)
    requires c + after != [] ==> !Descendant(a.position, (c + after)[0].position)
    ensures Collects([a] + b + c, after, 0, a.body, b)
  {
    RunIsAll(a.position, b, c + after);
    assert ([a] + b + c)[1..] + after == b + (c + after);
  }

  lemma CollectsMiddle(a: Invocation, b: seq<Invocation>, c: seq<Invocation>, after: seq<Invocation>, k: nat,
                       body: Body, found: seq<Invocation>)
    requires Collects(b, c + after, k, body, found)
    ensures Collects([a] + b + c, after, k + 1, body, found)
  {
    assert ([a] + b + c)[k + 2..] + after == b[k + 1..] + (c + after);
  }

  lemma CollectsLast(a: Invocation, b: seq<Invocation>, c: seq<Invocation>, after: seq<Invocation>, k: nat,
                     body: Body, found: seq<Invocation>)
    requires Collects(c, after, k, body, found)
    ensures Collects([a] + b + c, after, 1 + |b| + k, body, found)
  {
    assert ([a] + b + c)[1 + |b| + k + 1..] == c[k + 1..];
  }

  lemma RunOfRoot(calls: Trees, o: nat, idx: nat, h: nat, after: seq<Invocation>)
    requires calls.Cons? && Ends(after, o, h)
    ensures Collects(Flat(calls, o, idx, h), after, 0, calls.call.body, Inside(calls, o, idx, h))
  {
    RestEnds(calls.rest, after, o, idx + 1 + Size(calls.call.inner), h);
    FlatRunsInside(calls.call.inner, o, idx + 1, h + 1);
    RunsInsideDescend(Root(calls, o, idx, h).position, Inside(calls, o, idx, h), o, idx, h);
    CollectsFirst(Root(calls, o, idx, h), Inside(calls, o, idx, h), Later(calls, o, idx, h), after);
    FlatParts(calls, o, idx, h);
  }

  // A scan among the inner calls, and one among the calls after.
  lemma RunOfInner(calls: Trees, o: nat, idx: nat, h: nat, after: seq<Invocation>, k: nat, body: Body, found: seq<Invocation>)
    requires calls.Cons? && Collects(Inside(calls, o, idx, h), Later(calls, o, idx, h) + after, k, body, found)
    ensures Collects(Flat(calls, o, idx, h), after, k + 1, body, found)
  {
    CollectsMiddle(Root(calls, o, idx, h), Inside(calls, o, idx, h), Later(calls, o, idx, h), after, k, body, found);
    FlatParts(calls, o, idx, h);
  }

  lemma RunOfLater(calls: Trees, o: nat, idx: nat, h: nat, after: seq<Invocation>, k: nat, body: Body, found: seq<Invocation>)
    requires calls.Cons? && Collects(Later(calls, o, idx, h), after, k, body, found)
    ensures Collects(Flat(calls, o, idx, h), after, 1 + Size(calls.call.inner) + k, body, found)
  {
    FlatLength(calls.call.inner, o, idx + 1, h + 1);
    CollectsLast(Root(calls, o, idx, h), Inside(calls, o, idx, h), Later(calls, o, idx, h), after, k, body, found);
    FlatParts(calls, o, idx, h);
  }

  lemma LaterEndsInner(calls: Trees, o: nat, idx: nat, h: nat, after: seq<Invocation>)
    requires calls.Cons? && Ends(after, o, h)
    ensures Ends(Later(calls, o, idx, h) + after, o, h + 1)
  {
    RestEnds(calls.rest, after, o, idx + 1 + Size(calls.call.inner), h);
    EndsHigher(Later(calls, o, idx, h) + after, o, h);
  }

  // The scan finds the subtree of the `n`-th call.
  ghost predicate ScanIsRight(calls: Trees, o: nat, idx: nat, h: nat, after: seq<Invocation>, n: nat)
    requires n < Size(calls)
  {
    Collects(Flat(calls, o, idx, h), after, n, Nth(calls, n).body, Subtree(calls, o, idx, h, n))
  }

  lemma ScanOfRoot(calls: Trees, o: nat, idx: nat, h: nat, after: seq<Invocation>)
    requires calls.Cons? && Ends(after, o, h)
    ensures ScanIsRight(calls, o, idx, h, after, 0)
  {
    RunOfRoot(calls, o, idx, h, after);
  }

  lemma ScanOfInner(calls: Trees, o: nat, idx: nat, h: nat, after: seq<Invocation>, n: nat)
    requires calls.Cons? && 0 < n <= Size(calls.call.inner)
    requires ScanIsRight(calls.call.inner, o, idx + 1, h + 1, Later(calls, o, idx, h) + after, n - 1)
    ensures ScanIsRight(calls, o, idx, h, after, n)
  {
    RunOfInner(calls, o, idx, h, after, n - 1, Nth(calls, n).body, Subtree(calls, o, idx, h, n));
  }

  lemma ScanOfLater(calls: Trees, o: nat, idx: nat, h: nat, after: seq<Invocation>, n: nat)
    requires calls.Cons? && Size(calls.call.inner) < n < Size(calls)
    requires ScanIsRight(calls.rest, o, idx + 1 + Size(calls.call.inner), h, after, n - 1 - Size(calls.call.inner))
    ensures ScanIsRight(calls, o, idx, h, after, n)
  {
    RunOfLater(calls, o, idx, h, after, n - 1 - Size(calls.call.inner), Nth(calls, n).body, Subtree(calls, o, idx, h, n));
  }

  lemma {:induction false} RunIsSubtree(calls: Trees, o: nat, idx: nat, h: nat, after: seq<Invocation>, n: nat)
    requires n < Size(calls) && Ends(after, o, h)
    ensures ScanIsRight(calls, o, idx, h, after, n)
    decreases calls
  {
    if n == 0 {
      ScanOfRoot(calls, o, idx, h, after);
    } else if n <= Size(calls.call.inner) {
      LaterEndsInner(calls, o, idx, h, after);
      RunIsSubtree(calls.call.inner, o, idx + 1, h + 1, Later(calls, o, idx, h) + after, n - 1);
      ScanOfInner(calls, o, idx, h, after, n);
    } else {
      RunIsSubtree(calls.rest, o, idx + 1 + Size(calls.call.inner), h, after, n - 1 - Size(calls.call.inner));
      ScanOfLater(calls, o, idx, h, after, n);
    }
  }

  // What runs inside a call is its descendants; what ends its run is none.
  lemma RunsInsideDescend(p: Position, inside: seq<Invocation>, o: nat, idx: nat, h: nat)
    requires p == Position(o, Some(idx), Some(h)) && RunsInside(inside, o, idx + 1, h + 1)
    ensures AllDescend(p, inside)
  {
  }

  lemma {:induction false} ScanCollects(outers: Trees, o: nat, n: nat)
    requires n < Size(outers)
    ensures Collects(Transaction(outers, o), [], n, Nth(outers, n).body, SubtreeOf(outers, o, n))
  {
    var own := Invocation(Position(o, None, Some(1)), outers.call.body);
    var inner, rest := Flat(outers.call.inner, o, 0, 2), Transaction(outers.rest, o + 1);
    assert rest + [] == rest;
    FlatLength(outers.call.inner, o, 0, 2);
    if n == 0 {
      FlatRunsInside(outers.call.inner, o, 0, 2);
      CollectsFirst(own, inner, rest, []);
    } else if n <= Size(outers.call.inner) {
      RunIsSubtree(outers.call.inner, o, 0, 2, rest, n - 1);
      CollectsMiddle(own, inner, rest, [], n - 1, Nth(outers, n).body, SubtreeOf(outers, o, n));
    } else {
      ScanCollects(outers.rest, o + 1, n - 1 - |inner|);
      CollectsLast(own, inner, rest, [], n - 1 - |inner|, Nth(outers, n).body, SubtreeOf(outers, o, n));
    }
  }

  /**
   For every tree of calls whose heights are known: the scan that stops at the first invocation
   that is no descendant collects exactly what ran inside, be it an outer instruction or a call.
   */
  lemma ScanFindsSubtree(outers: Trees, o: nat, n: nat)
    requires n < Size(outers)
    ensures |Transaction(outers, o)| == Size(outers)
    ensures Transaction(outers, o)[n].body == Nth(outers, n).body
    ensures DescendantRun(Transaction(outers, o)[n].position, Transaction(outers, o)[n + 1..]) == SubtreeOf(outers, o, n)
  {
    TransactionLength(outers, o);
    ScanCollects(outers, o, n);
    var later := Transaction(outers, o)[n + 1..];
    assert later + [] == later;
  }

  // A subtree is a flattened forest one level above the call that made it.
  ghost predicate IsFlatAt(calls: Trees, o: nat, idx: nat, h: nat, n: nat, at: nat, level: nat)
    requires n < Size(calls)
  {
    && Subtree(calls, o, idx, h, n) == Flat(Nth(calls, n).inner, o, at, level + 1)
    && n < |Flat(calls, o, idx, h)| && Flat(calls, o, idx, h)[n].position.height == Some(level)
  }

  lemma FlatAtInner(calls: Trees, o: nat, idx: nat, h: nat, n: nat, at: nat, level: nat)
    requires calls.Cons? && 0 < n <= Size(calls.call.inner) && IsFlatAt(calls.call.inner, o, idx + 1, h + 1, n - 1, at, level)
    ensures IsFlatAt(calls, o, idx, h, n, at, level)
  {
    FlatParts(calls, o, idx, h);
  }

  lemma FlatAtLater(calls: Trees, o: nat, idx: nat, h: nat, n: nat, at: nat, level: nat)
    requires calls.Cons? && Size(calls.call.inner) < n < Size(calls)
    requires IsFlatAt(calls.rest, o, idx + 1 + Size(calls.call.inner), h, n - 1 - Size(calls.call.inner), at, level)
    ensures IsFlatAt(calls, o, idx, h, n, at, level)
  {
    FlatLength(calls.call.inner, o, idx + 1, h + 1);
    FlatParts(calls, o, idx, h);
  }

  lemma {:induction false} SubtreeIsFlat(calls: Trees, o: nat, idx: nat, h: nat, n: nat) returns (at: nat, level: nat)
    requires n < Size(calls)
    ensures IsFlatAt(calls, o, idx, h, n, at, level)
    decreases calls
  {
    if n == 0 {
      FlatParts(calls, o, idx, h);
      at, level := idx + 1, h;
    } else if n <= Size(calls.call.inner) {
      at, level := SubtreeIsFlat(calls.call.inner, o, idx + 1, h + 1, n - 1);
      FlatAtInner(calls, o, idx, h, n, at, level);
    } else {
      at, level := SubtreeIsFlat(calls.rest, o, idx + 1 + Size(calls.call.inner), h, n - 1 - Size(calls.call.inner));
      FlatAtLater(calls, o, idx, h, n, at, level);
    }
  }

  lemma {:induction false} SubtreeOfIsFlat(outers: Trees, o: nat, n: nat) returns (top: nat, at: nat, level: nat)
    requires n < Size(outers)
    ensures SubtreeOf(outers, o, n) == Flat(Nth(outers, n).inner, top, at, level + 1)
    ensures n < |Transaction(outers, o)| && Transaction(outers, o)[n].position.height == Some(level)
  {
    var inner := Flat(outers.call.inner, o, 0, 2);
    FlatLength(outers.call.inner, o, 0, 2);
    if n == 0 {
      top, at, level := o, 0, 1;
    } else if n <= Size(outers.call.inner) {
      top := o;
      at, level := SubtreeIsFlat(outers.call.inner, o, 0, 2, n - 1);
    } else {
      top, at, level := SubtreeOfIsFlat(outers.rest, o + 1, n - 1 - |inner|);
    }
  }
}
