/**
 The frames the merge selects are the true callers: for every tree of cross-program calls, in
 whatever order its events were collected, the frame found for an event-CPI is its parent.
 */
module CallTree {
  import opened Prelude
  import opened InstructionMerge
  import opened InstructionMergeProofs
  import opened CallForests

  // ----- Frames that are still running -----

  /** All frames belong to one outer instruction, and heights strictly increase. */
  ghost predicate Nested(ts: seq<Target>) {
    && (forall j :: 0 <= j < |ts| ==> ts[j].stackHeight.Some?)
    && (forall j, k :: 0 <= j < k < |ts| ==> ts[j].outerIdx == ts[k].outerIdx && ts[j].stackHeight.value < ts[k].stackHeight.value)
  }

  lemma {:induction false} OpenIsNested(ts: seq<Target>, i: Item, s: nat)
    requires Nested(ts) && i.stackHeight.Some?
    ensures Nested(Open(ts, i) + [FrameOf(i, s)])
  {
    if ts != [] && Ended(ts[|ts| - 1], i) {
      OpenIsNested(ts[..|ts| - 1], i, s);
    }
  }

  ghost predicate KnownHeights(items: seq<Item>) {
    forall k :: 0 <= k < |items| ==> items[k].stackHeight.Some?
  }

  lemma PumpIsNested(f: Fold, i: Item)
    requires TargetsFit(f) && Nested(f.pump) && i.stackHeight.Some?
    ensures Nested(Step(f, i).pump)
  {
    if i.innerIdx.Some? && IsPumpBranch(i) && !i.isEventCpi {
      OpenIsNested(f.pump, i, |f.out|);
    }
  }

  lemma DlmmIsNested(f: Fold, i: Item)
    requires TargetsFit(f) && Nested(f.dlmm) && i.stackHeight.Some?
    ensures Nested(Step(f, i).dlmm)
  {
    if i.innerIdx.Some? && !IsPumpBranch(i) && IsDlmm(i.event) && !i.isEventCpi {
      OpenIsNested(f.dlmm, i, StepOther(f, i).slots[|f.slots|]);
    }
  }

  /** With known heights, both stacks are nested at every point of the run. */
  lemma {:induction false} RunIsNested(items: seq<Item>)
    requires KnownHeights(items)
    ensures Nested(Run(items).pump) && Nested(Run(items).dlmm)
  {
    if items != [] {
      var n := |items| - 1;
      RunIsNested(items[..n]);
      PumpIsNested(Run(items[..n]), items[n]);
      DlmmIsNested(Run(items[..n]), items[n]);
    }
  }

  // The frame at output `s` runs at height `h`, and only its callees are above it.
  ghost predicate Running(ts: seq<Target>, s: nat, o: nat, h: nat) {
    exists x :: 0 <= x < |ts| && RunningAt(ts, x, s, o, h)
  }

  ghost predicate RunningAt(ts: seq<Target>, x: nat, s: nat, o: nat, h: nat)
    requires x < |ts|
  {
    && ts[x].resultIdx == s && ts[x].outerIdx == o && ts[x].stackHeight == Some(h)
    && forall y :: x < y < |ts| ==> ts[y].stackHeight.Some? && ts[y].stackHeight.value > h
  }

  predicate IsCallee(i: Item, o: nat, h: nat) {
    i.innerIdx.Some? && i.outerIdx == o && i.stackHeight.Some? && i.stackHeight.value > h
  }

  lemma {:induction false} OpenKeeps(ts: seq<Target>, i: Item, x: nat, s: nat, o: nat, h: nat)
    requires x < |ts| && RunningAt(ts, x, s, o, h) && IsCallee(i, o, h)
    ensures x < |Open(ts, i)|
  {
    if x < |ts| - 1 && Ended(ts[|ts| - 1], i) {
      OpenKeeps(ts[..|ts| - 1], i, x, s, o, h);
    }
  }

  lemma OpenKeepsRunning(ts: seq<Target>, i: Item, t: Target, s: nat, o: nat, h: nat)
    requires Running(ts, s, o, h) && IsCallee(i, o, h) && t.stackHeight == i.stackHeight
    ensures Running(Open(ts, i) + [t], s, o, h)
  {
    var x :| 0 <= x < |ts| && RunningAt(ts, x, s, o, h);
    OpenKeeps(ts, i, x, s, o, h);
    assert RunningAt(Open(ts, i) + [t], x, s, o, h);
  }

  lemma ConsumeKeepsRunning(ts: seq<Target>, j: nat, s: nat, o: nat, h: nat)
    requires Running(ts, s, o, h) && j < |ts|
    ensures Running(ts[j := ts[j].(consumed := true)], s, o, h)
  {
    var x :| 0 <= x < |ts| && RunningAt(ts, x, s, o, h);
    assert RunningAt(ts[j := ts[j].(consumed := true)], x, s, o, h);
  }

  // The selected frame lies at or above a running one, so cutting there keeps it.
  lemma CutKeepsRunning(ts: seq<Target>, i: Item, j: nat, s: nat, o: nat, h: nat)
    requires Nested(ts) && Running(ts, s, o, h) && IsCallee(i, o, h)
    requires j < |ts| && MayCall(ts[j], i)
    ensures Running(ts[..j + 1], s, o, h)
  {
    var x :| 0 <= x < |ts| && RunningAt(ts, x, s, o, h);
    assert x <= j;
    assert RunningAt(ts[..j + 1], x, s, o, h);
  }

  lemma PumpKeepsRunning(f: Fold, i: Item, s: nat, o: nat, h: nat)
    requires TargetsFit(f) && Running(f.pump, s, o, h) && IsCallee(i, o, h)
    ensures Running(Step(f, i).pump, s, o, h)
  {
    if IsPumpBranch(i) {
      if i.isEventCpi {
        var found := Select(f.pump, i);
        if found.Some? {
          ConsumeKeepsRunning(f.pump, found.value, s, o, h);
        }
      } else {
        OpenKeepsRunning(f.pump, i, FrameOf(i, |f.out|), s, o, h);
      }
    }
  }

  lemma DlmmKeepsRunning(f: Fold, i: Item, s: nat, o: nat, h: nat)
    requires TargetsFit(f) && Nested(f.dlmm) && Running(f.dlmm, s, o, h) && IsCallee(i, o, h)
    ensures Running(Step(f, i).dlmm, s, o, h)
  {
    if IsPumpBranch(i) {
    } else if i.isEventCpi && IsDlmm(i.event) {
      var found := Select(f.dlmm, i);
      if found.Some? {
        CutKeepsRunning(f.dlmm, i, found.value, s, o, h);
      }
    } else if IsDlmm(i.event) {
      OpenKeepsRunning(f.dlmm, i, FrameOf(i, StepOther(f, i).slots[|f.slots|]), s, o, h);
    }
  }

  // A running frame is what the search finds for its direct callee.
  lemma SelectFindsRunning(ts: seq<Target>, i: Item, s: nat, o: nat, h: nat)
    requires Running(ts, s, o, h) && i.outerIdx == o && i.stackHeight == Some(h + 1)
    ensures Select(ts, i).Some? && ts[Select(ts, i).value].resultIdx == s
  {
    var x :| 0 <= x < |ts| && RunningAt(ts, x, s, o, h);
    assert MayCall(ts[x], i);
    assert forall y :: x < y < |ts| ==> !MayCall(ts[y], i);
  }

  // ----- Callers in a list of items -----

  predicate IsPumpFrame(i: Item) {
    if i.innerIdx.None? then IsPumpTrade(i.event) else IsPumpBranch(i) && !i.isEventCpi
  }

  predicate IsDlmmFrame(i: Item) {
    IsDlmm(i.event) && (i.innerIdx.None? || !i.isEventCpi)
  }

  predicate IsDlmmCpi(i: Item) {
    i.innerIdx.Some? && i.isEventCpi && IsDlmm(i.event)
  }

  // Item `p` called item `k`: one level up, and everything between ran inside it.
  ghost predicate Calls(items: seq<Item>, p: nat, k: nat) {
    && p < k < |items| && items[p].stackHeight.Some?
    && items[k].stackHeight == Some(items[p].stackHeight.value + 1)
    && forall j :: p < j <= k ==> IsCallee(items[j], items[p].outerIdx, items[p].stackHeight.value)
  }

  lemma {:induction false} RunSlots(items: seq<Item>, m: nat)
    requires m <= |items|
    ensures Run(items[..m]).slots <= Run(items).slots
  {
    if m == |items| {
      assert items[..m] == items;
    } else {
      var n := |items| - 1;
      RunSlots(items[..n], m);
      assert items[..n][..m] == items[..m];
    }
  }

  lemma RunNext(items: seq<Item>, m: nat)
    requires m < |items|
    ensures Run(items[..m + 1]) == Step(Run(items[..m]), items[m])
  {
    assert items[..m + 1][..m] == items[..m];
  }

  // Right after a frame has been pushed it is running, and nothing is above it.
  lemma PushedIsRunning(f: Fold, i: Item)
    requires TargetsFit(f) && i.stackHeight.Some?
    ensures var s := Step(f, i).slots[|f.slots|];
            && (IsPumpFrame(i) ==> Running(Step(f, i).pump, s, i.outerIdx, i.stackHeight.value))
            && (IsDlmmFrame(i) ==> Running(Step(f, i).dlmm, s, i.outerIdx, i.stackHeight.value))
  {
    var g := Step(f, i);
    var s := g.slots[|f.slots|];
    if IsPumpFrame(i) {
      assert RunningAt(g.pump, |g.pump| - 1, s, i.outerIdx, i.stackHeight.value);
    }
    if IsDlmmFrame(i) {
      assert RunningAt(g.dlmm, |g.dlmm| - 1, s, i.outerIdx, i.stackHeight.value);
    }
  }

  lemma {:induction false} CallerIsRunning(items: seq<Item>, p: nat, k: nat, m: nat)
    requires KnownHeights(items) && Calls(items, p, k) && p < m <= k
    ensures var f, s, o, h := Run(items[..m]), Run(items).slots[p], items[p].outerIdx, items[p].stackHeight.value;
            && (IsPumpFrame(items[p]) ==> Running(f.pump, s, o, h))
            && (IsDlmmFrame(items[p]) ==> Running(f.dlmm, s, o, h))
    decreases m
  {
    var s, o, h := Run(items).slots[p], items[p].outerIdx, items[p].stackHeight.value;
    var before := Run(items[..m - 1]);
    RunNext(items, m - 1);
    RunSlots(items, m);
    if m - 1 == p {
      PushedIsRunning(before, items[p]);
    } else {
      CallerIsRunning(items, p, k, m - 1);
      RunIsNested(items[..m - 1]);
      if IsPumpFrame(items[p]) {
        PumpKeepsRunning(before, items[m - 1], s, o, h);
      }
      if IsDlmmFrame(items[p]) {
        DlmmKeepsRunning(before, items[m - 1], s, o, h);
      }
    }
  }

  /** In a list: the frame selected for an event-CPI is the output of the item that called it. */
  lemma SelectFindsCaller(items: seq<Item>, p: nat, k: nat)
    requires KnownHeights(items) && Calls(items, p, k)
    ensures var f, s := Run(items[..k]), Run(items).slots[p];
            && (IsPumpFrame(items[p]) ==>
                  Select(f.pump, items[k]).Some? && f.pump[Select(f.pump, items[k]).value].resultIdx == s)
            && (IsDlmmFrame(items[p]) ==>
                  Select(f.dlmm, items[k]).Some? && f.dlmm[Select(f.dlmm, items[k]).value].resultIdx == s)
  {
    var f, s, o, h := Run(items[..k]), Run(items).slots[p], items[p].outerIdx, items[p].stackHeight.value;
    CallerIsRunning(items, p, k, k);
    if IsPumpFrame(items[p]) {
      SelectFindsRunning(f.pump, items[k], s, o, h);
    }
    if IsDlmmFrame(items[p]) {
      SelectFindsRunning(f.dlmm, items[k], s, o, h);
    }
  }

  // ----- Trees of calls -----

  // A call may carry no event: its program is not supported, or its data did not parse.
  datatype Made = Made(event: Option<Event>, isEventCpi: bool)

  type Trees = Forest<Made>

  function Own(c: Made, o: nat, innerIdx: Option<nat>, h: nat): seq<Item> {
    if c.event.Some? then [Item(o, innerIdx, Some(h), c.isEventCpi, c.event.value)] else []
  }

  // Inner calls in execution order, numbered from `idx`, at height `h`.
  function Items(calls: Trees, o: nat, idx: nat, h: nat): seq<Item> {
    if calls.Nil? then []
    else
      Own(calls.call.body, o, Some(idx), h) + Items(calls.call.inner, o, idx + 1, h + 1)
      + Items(calls.rest, o, idx + 1 + Size(calls.call.inner), h)
  }

  // A transaction's outer instructions run at height 1 and are never event-CPIs.
  function TransactionItems(outers: Trees, o: nat): seq<Item> {
    if outers.Nil? then []
    else
      Own(outers.call.body.(isEventCpi := false), o, None, 1) + Items(outers.call.inner, o, 0, 2)
      + TransactionItems(outers.rest, o + 1)
  }

  // `k` is the item of a call made directly by the call of item `p`; `up` is the caller of `calls`.
  ghost predicate Called(calls: Trees, o: nat, idx: nat, h: nat, up: seq<Item>, p: Item, k: Item) {
    calls.Cons? &&
    var own := Own(calls.call.body, o, Some(idx), h);
    || (up == [p] && own == [k])
    || Called(calls.call.inner, o, idx + 1, h + 1, own, p, k)
    || Called(calls.rest, o, idx + 1 + Size(calls.call.inner), h, up, p, k)
  }

  ghost predicate CalledIn(outers: Trees, o: nat, p: Item, k: Item) {
    outers.Cons? &&
    (|| Called(outers.call.inner, o, 0, 2, Own(outers.call.body.(isEventCpi := false), o, None, 1), p, k)
     || CalledIn(outers.rest, o + 1, p, k))
  }

  lemma {:induction false} ItemsAreInside(calls: Trees, o: nat, idx: nat, h: nat, j: nat)
    requires h > 0 && j < |Items(calls, o, idx, h)|
    ensures var i := Items(calls, o, idx, h)[j];
            IsCallee(i, o, h - 1) && idx <= i.innerIdx.value < idx + Size(calls)
  {
    var own, inner := Own(calls.call.body, o, Some(idx), h), Items(calls.call.inner, o, idx + 1, h + 1);
    if j < |own| {
    } else if j < |own| + |inner| {
      ItemsAreInside(calls.call.inner, o, idx + 1, h + 1, j - |own|);
    } else {
      ItemsAreInside(calls.rest, o, idx + 1 + Size(calls.call.inner), h, j - |own| - |inner|);
    }
  }

  // Somewhere in `items`, `p` calls `k`.
  ghost predicate CallsWithin(items: seq<Item>, p: Item, k: Item) {
    exists a, b :: 0 <= a < b < |items| && items[a] == p && items[b] == k && Calls(items, a, b)
  }

  lemma CallsShift(before: seq<Item>, items: seq<Item>, after: seq<Item>, p: Item, k: Item)
    requires CallsWithin(items, p, k)
    ensures CallsWithin(before + items + after, p, k)
  {
    var a, b :| 0 <= a < b < |items| && items[a] == p && items[b] == k && Calls(items, a, b);
    var all := before + items + after;
    var n := |before|;
    assert all[n + a] == p && all[n + b] == k;
    assert forall j :: a < j <= b ==> all[n + j] == items[j];
    assert forall j :: n + a < j <= n + b ==> all[j] == items[j - n];
    assert Calls(all, n + a, n + b);
  }

  // The caller's item, if any, stands one level above the calls it makes.
  ghost predicate IsUp(up: seq<Item>, o: nat, h: nat) {
    up == [] || (|up| == 1 && up[0].outerIdx == o && h > 0 && up[0].stackHeight == Some(h - 1))
  }

  lemma CallsFirst(p: Item, k: Item, inner: seq<Item>, rest: seq<Item>)
    requires p.stackHeight.Some? && k.stackHeight == Some(p.stackHeight.value + 1)
    requires IsCallee(k, p.outerIdx, p.stackHeight.value)
    ensures CallsWithin([p] + ([k] + inner + rest), p, k)
  {
    var all := [p] + ([k] + inner + rest);
    assert all[0] == p && all[1] == k && Calls(all, 0, 1);
  }

  lemma CallsInside(up: seq<Item>, own: seq<Item>, inner: seq<Item>, rest: seq<Item>, p: Item, k: Item)
    requires CallsWithin(own + inner, p, k)
    ensures CallsWithin(up + (own + inner + rest), p, k)
  {
    CallsShift(up, own + inner, rest, p, k);
    assert up + (own + inner + rest) == up + (own + inner) + rest;
  }

  lemma {:induction false} CalledIsCalls(calls: Trees, o: nat, idx: nat, h: nat, up: seq<Item>, p: Item, k: Item)
    requires h > 0 && IsUp(up, o, h) && Called(calls, o, idx, h, up, p, k)
    ensures CallsWithin(up + Items(calls, o, idx, h), p, k)
  {
    var own, inner := Own(calls.call.body, o, Some(idx), h), Items(calls.call.inner, o, idx + 1, h + 1);
    var next := idx + 1 + Size(calls.call.inner);
    var rest := Items(calls.rest, o, next, h);
    if up == [p] && own == [k] {
      CallsFirst(p, k, inner, rest);
    } else if Called(calls.call.inner, o, idx + 1, h + 1, own, p, k) {
      CalledIsCalls(calls.call.inner, o, idx + 1, h + 1, own, p, k);
      CallsInside(up, own, inner, rest, p, k);
    } else {
      CalledIsCalls(calls.rest, o, next, h, up, p, k);
      ItemsAreCallees(calls, o, idx, h);
      assert Items(calls, o, idx, h) == own + inner + rest;
      CallsLater(up, own + inner, rest, o, h, p, k);
    }
  }

  ghost predicate AllCallees(items: seq<Item>, o: nat, h: nat)
    requires h > 0
  {
    forall j :: 0 <= j < |items| ==> IsCallee(items[j], o, h - 1)
  }

  lemma ItemsAreCallees(calls: Trees, o: nat, idx: nat, h: nat)
    requires h > 0
    ensures AllCallees(Items(calls, o, idx, h), o, h)
  {
    forall j | 0 <= j < |Items(calls, o, idx, h)|
      ensures IsCallee(Items(calls, o, idx, h)[j], o, h - 1)
    {
      ItemsAreInside(calls, o, idx, h, j);
    }
  }

  // Calls move with the items behind a gap.
  lemma CallsMove(short: seq<Item>, all: seq<Item>, from: nat, n: nat, a: nat, b: nat)
    requires Calls(short, a, b) && from <= a && |all| == |short| + n
    requires forall j :: from <= j < |short| ==> all[n + j] == short[j]
    ensures Calls(all, n + a, n + b)
  {
    forall j | n + a < j <= n + b
      ensures IsCallee(all[j], all[n + a].outerIdx, all[n + a].stackHeight.value)
    {
      assert all[n + (j - n)] == short[j - n];
    }
  }

  // A call among the later ones of `up`: between them, everything ran inside `up`.
  lemma CallsLater(up: seq<Item>, first: seq<Item>, rest: seq<Item>, o: nat, h: nat, p: Item, k: Item)
    requires h > 0 && IsUp(up, o, h)
    requires AllCallees(first + rest, o, h)
    requires CallsWithin(up + rest, p, k)
    ensures CallsWithin(up + (first + rest), p, k)
  {
    var short, all, n := up + rest, up + (first + rest), |first|;
    var a, b :| 0 <= a < b < |short| && short[a] == p && short[b] == k && Calls(short, a, b);
    assert all[n + b] == short[b];
    if a >= |up| {
      CallsMove(short, all, |up|, n, a, b);
      assert all[n + a] == p;
    } else {
      forall j | 0 < j <= n + b
        ensures IsCallee(all[j], o, h - 1)
      {
        assert all[j] == (first + rest)[j - 1];
      }
      assert Calls(all, 0, n + b);
    }
  }

  lemma CallsBefore(a: seq<Item>, b: seq<Item>, p: Item, k: Item)
    requires CallsWithin(a, p, k)
    ensures CallsWithin(a + b, p, k)
  {
    CallsShift([], a, b, p, k);
    assert [] + a + b == a + b;
  }

  lemma CallsBehind(a: seq<Item>, b: seq<Item>, p: Item, k: Item)
    requires CallsWithin(b, p, k)
    ensures CallsWithin(a + b, p, k)
  {
    CallsShift(a, b, [], p, k);
    assert a + b + [] == a + b;
  }

  lemma {:induction false} CalledInIsCalls(outers: Trees, o: nat, p: Item, k: Item)
    requires CalledIn(outers, o, p, k)
    ensures CallsWithin(TransactionItems(outers, o), p, k)
  {
    var own := Own(outers.call.body.(isEventCpi := false), o, None, 1);
    var inner, rest := Items(outers.call.inner, o, 0, 2), TransactionItems(outers.rest, o + 1);
    if Called(outers.call.inner, o, 0, 2, own, p, k) {
      CalledIsCalls(outers.call.inner, o, 0, 2, own, p, k);
      CallsBefore(own + inner, rest, p, k);
    } else {
      CalledInIsCalls(outers.rest, o + 1, p, k);
      CallsBehind(own + inner, rest, p, k);
    }
  }

  // ----- Sorting recovers execution order -----

  ghost predicate InExecutionOrder(items: seq<Item>) {
    forall i, j :: 0 <= i < j < |items| ==> Precedes(items[i], items[j])
  }

  lemma {:induction false} ItemsAscend(calls: Trees, o: nat, idx: nat, h: nat)
    requires h > 0
    ensures InExecutionOrder(Items(calls, o, idx, h))
  {
    if calls.Cons? {
      var own, inner := Own(calls.call.body, o, Some(idx), h), Items(calls.call.inner, o, idx + 1, h + 1);
      var next := idx + 1 + Size(calls.call.inner);
      var rest := Items(calls.rest, o, next, h);
      ItemsAscend(calls.call.inner, o, idx + 1, h + 1);
      ItemsAscend(calls.rest, o, next, h);
      forall j | 0 <= j < |inner|
        ensures inner[j].innerIdx.Some? && idx < inner[j].innerIdx.value < next && inner[j].outerIdx == o
      {
        ItemsAreInside(calls.call.inner, o, idx + 1, h + 1, j);
      }
      forall j | 0 <= j < |rest|
        ensures rest[j].innerIdx.Some? && next <= rest[j].innerIdx.value && rest[j].outerIdx == o
      {
        ItemsAreInside(calls.rest, o, next, h, j);
      }
    }
  }

  lemma {:induction false} TransactionAscends(outers: Trees, o: nat)
    ensures InExecutionOrder(TransactionItems(outers, o)) && KnownHeights(TransactionItems(outers, o))
    ensures forall j :: 0 <= j < |TransactionItems(outers, o)| ==> TransactionItems(outers, o)[j].outerIdx >= o
  {
    if outers.Cons? {
      var inner := Items(outers.call.inner, o, 0, 2);
      TransactionAscends(outers.rest, o + 1);
      ItemsAscend(outers.call.inner, o, 0, 2);
      forall j | 0 <= j < |inner|
        ensures IsCallee(inner[j], o, 1)
      {
        ItemsAreInside(outers.call.inner, o, 0, 2, j);
      }
    }
  }

  lemma TailElements(s: seq<Item>)
    requires s != []
    ensures multiset(s) == multiset{s[0]} + multiset(s[1..])
  {
    assert s == [s[0]] + s[1..];
  }

  lemma SameFirst(a: seq<Item>, b: seq<Item>)
    requires InExecutionOrder(a) && InOrder(b) && multiset(a) == multiset(b) && a != []
    ensures b != [] && a[0] == b[0]
  {
    assert a[0] in multiset(b);
    assert b[0] in multiset(a);
    var x :| 0 <= x < |b| && b[x] == a[0];
    var y :| 0 <= y < |a| && a[y] == b[0];
    assert y == 0 || Precedes(a[0], a[y]);
  }

  lemma SameRest(a: seq<Item>, b: seq<Item>)
    requires a != [] && b != [] && a[0] == b[0] && multiset(a) == multiset(b)
    ensures multiset(a[1..]) == multiset(b[1..])
  {
    TailElements(a);
    TailElements(b);
    assert multiset(a[1..]) == multiset(a) - multiset{a[0]};
  }

  lemma {:induction false} SortedIsUnique(a: seq<Item>, b: seq<Item>)
    requires InExecutionOrder(a) && InOrder(b) && multiset(a) == multiset(b)
    ensures a == b
  {
    assert |a| == |multiset(a)| && |b| == |multiset(b)|;
    if a != [] {
      SameFirst(a, b);
      SameRest(a, b);
      SortedIsUnique(a[1..], b[1..]);
      assert a == [a[0]] + a[1..] && b == [b[0]] + b[1..];
    }
  }

  /** However the events of a transaction were collected, sorting puts them in execution order. */
  lemma SortRecoversExecution(outers: Trees, collected: seq<Item>)
    requires multiset(collected) == multiset(TransactionItems(outers, 0))
    ensures Sort(collected) == TransactionItems(outers, 0)
  {
    TransactionAscends(outers, 0);
    SortedIsUnique(TransactionItems(outers, 0), Sort(collected));
  }

  lemma CallIsInList(outers: Trees, collected: seq<Item>, p: Item, k: Item) returns (a: nat, b: nat)
    requires multiset(collected) == multiset(TransactionItems(outers, 0)) && CalledIn(outers, 0, p, k)
    ensures var items := Sort(collected);
            KnownHeights(items) && a < b < |items| && items[a] == p && items[b] == k && Calls(items, a, b)
  {
    SortRecoversExecution(outers, collected);
    TransactionAscends(outers, 0);
    CalledInIsCalls(outers, 0, p, k);
    var items := TransactionItems(outers, 0);
    a, b :| 0 <= a < b < |items| && items[a] == p && items[b] == k && Calls(items, a, b);
  }

  // When `b` is reached the search selects exactly the output of `a`.
  ghost predicate SelectedAt(items: seq<Item>, a: nat, b: nat)
    requires a < b < |items|
  {
    && (IsPumpFrame(items[a]) && IsPumpCpi(items[b]) ==> Finds(Run(items[..b]).pump, items[b], Run(items).slots[a]))
    && (IsDlmmFrame(items[a]) && IsDlmmCpi(items[b]) ==> Finds(Run(items[..b]).dlmm, items[b], Run(items).slots[a]))
  }

  lemma CallerIsSelected(items: seq<Item>, a: nat, b: nat)
    requires KnownHeights(items) && Calls(items, a, b)
    ensures SelectedAt(items, a, b)
  {
    SelectFindsCaller(items, a, b);
  }

  /**
   For every transaction and every collection order: if `p` was recorded as a trade frame and its
   call directly made the event-CPI `k`, then when `k` is reached the search selects exactly the
   output of `p`.
   */
  lemma EventCpiFindsItsCaller(outers: Trees, collected: seq<Item>, p: Item, k: Item)
    requires multiset(collected) == multiset(TransactionItems(outers, 0)) && CalledIn(outers, 0, p, k)
    ensures var items := Sort(collected);
            exists a, b :: 0 <= a < b < |items| && items[a] == p && items[b] == k && SelectedAt(items, a, b)
  {
    var a, b := CallIsInList(outers, collected, p, k);
    CallerIsSelected(Sort(collected), a, b);
  }

  ghost predicate Finds(ts: seq<Target>, i: Item, s: nat) {
    Select(ts, i).Some? && ts[Select(ts, i).value].resultIdx == s
  }
}
