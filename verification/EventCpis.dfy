/**
 Which event-CPI a trade frame takes: the first that its call made, where the two events agree.
 */
module EventCpis {
  import opened Prelude
  import opened InstructionMerge
  import opened InstructionMergeProofs
  import opened CallTree

  // Between `p` and `m`, `p` called an event-CPI.
  ghost predicate Took(items: seq<Item>, p: nat, m: nat)
    requires m <= |items|
  {
    exists e: nat :: p < e < m && IsPumpCpi(items[e]) && Calls(items, p, e)
  }

  // Every frame of output `s` is marked as `c` says.
  ghost predicate Marked(ts: seq<Target>, s: nat, c: bool) {
    forall j :: 0 <= j < |ts| && ts[j].resultIdx == s ==> ts[j].consumed == c
  }

  ghost predicate Distinguished(ts: seq<Target>) {
    forall j, k :: 0 <= j < k < |ts| ==> ts[j].resultIdx < ts[k].resultIdx
  }

  lemma FramesAreDistinguished(items: seq<Item>)
    ensures Distinguished(Run(items).pump)
  {
    RunConserves(items);
  }

  lemma MarkedPrefix(ts: seq<Target>, r: seq<Target>, t: Target, s: nat, c: bool)
    requires Marked(ts, s, c) && r <= ts && t.resultIdx != s
    ensures Marked(r + [t], s, c)
  {
  }

  // What an event-CPI does to the marks of a running frame: only a direct callee finds it.
  lemma CpiMarks(f: Fold, i: Item, s: nat, o: nat, h: nat, c: bool)
    requires TargetsFit(f) && IsPumpCpi(i) && Distinguished(f.pump) && Marked(f.pump, s, c)
    requires Running(f.pump, s, o, h) && IsCallee(i, o, h)
    ensures Marked(StepPumpCpi(f, i).pump, s, c || i.stackHeight == Some(h + 1))
  {
    var x :| 0 <= x < |f.pump| && RunningAt(f.pump, x, s, o, h);
    var found := Select(f.pump, i);
    if i.stackHeight == Some(h + 1) {
      SelectFindsRunning(f.pump, i, s, o, h);
      assert found.value == x;
    } else if found.Some? {
      assert f.pump[found.value].stackHeight != Some(h);
      assert found.value != x;
    }
    PumpAfterCpi(f, i);
  }

  lemma PumpAfterCpi(f: Fold, i: Item)
    requires TargetsFit(f)
    ensures var found := Select(f.pump, i);
            StepPumpCpi(f, i).pump == if found.Some? then f.pump[found.value := f.pump[found.value].(consumed := true)] else f.pump
  {
    var found := Select(f.pump, i);
    if found.Some? && f.pump[found.value].consumed {
      assert f.pump[found.value := f.pump[found.value].(consumed := true)] == f.pump;
    }
  }

  lemma StepMarks(f: Fold, i: Item, s: nat, o: nat, h: nat, c: bool)
    requires TargetsFit(f) && Distinguished(f.pump) && Marked(f.pump, s, c) && s < |f.out|
    requires Running(f.pump, s, o, h) && IsCallee(i, o, h)
    ensures Marked(Step(f, i).pump, s, c || (IsPumpCpi(i) && i.stackHeight == Some(h + 1)))
  {
    if IsPumpBranch(i) {
      if i.isEventCpi {
        CpiMarks(f, i, s, o, h, c);
      } else {
        MarkedPrefix(f.pump, Open(f.pump, i), FrameOf(i, |f.out|), s, c);
      }
    }
  }

  lemma TookNext(items: seq<Item>, p: nat, k: nat, m: nat)
    requires Calls(items, p, k) && p < m < k
    ensures Took(items, p, m + 1) <==>
            Took(items, p, m) || (IsPumpCpi(items[m]) && items[m].stackHeight == Some(items[p].stackHeight.value + 1))
  {
    assert Calls(items, p, m) <==> items[m].stackHeight == Some(items[p].stackHeight.value + 1);
    if Took(items, p, m + 1) {
      var e: nat :| p < e < m + 1 && IsPumpCpi(items[e]) && Calls(items, p, e);
      assert e == m || Took(items, p, m);
    }
  }

  // A frame just opened is on top, alone of its output, and has taken nothing.
  lemma PushedIsFree(f: Fold, i: Item)
    requires TargetsFit(f) && IsPumpFrame(i)
    ensures Marked(Step(f, i).pump, Step(f, i).slots[|f.slots|], false) && Step(f, i).slots[|f.slots|] < |Step(f, i).out|
  {
    if i.innerIdx.Some? {
      assert forall j :: 0 <= j < |Open(f.pump, i)| ==> Open(f.pump, i)[j].resultIdx < |f.out|;
    }
  }

  lemma OutGrows(f: Fold, i: Item)
    requires TargetsFit(f)
    ensures |f.out| <= |Step(f, i).out|
  {
  }

  lemma SlotStays(items: seq<Item>, p: nat, m: nat)
    requires p < m <= |items|
    ensures Run(items[..m]).slots[p] == Run(items).slots[p]
  {
    RunSlots(items, m);
  }

  ghost predicate MarkedIn(f: Fold, s: nat, took: bool) {
    s < |f.out| && Marked(f.pump, s, took)
  }

  // What is known of the output of `p` after `m` items.
  ghost predicate MarkedAfter(items: seq<Item>, p: nat, s: nat, m: nat)
    requires m <= |items|
  {
    MarkedIn(Run(items[..m]), s, Took(items, p, m))
  }

  lemma MarkedFirst(items: seq<Item>, p: nat)
    requires p < |items| && IsPumpFrame(items[p])
    ensures MarkedAfter(items, p, Run(items).slots[p], p + 1)
  {
    SlotStays(items, p, p + 1);
    CallTree.RunNext(items, p);
    PushedIsFree(Run(items[..p]), items[p]);
    assert !Took(items, p, p + 1);
  }

  lemma MarkedStep(f: Fold, i: Item, s: nat, o: nat, h: nat, took: bool)
    requires TargetsFit(f) && Distinguished(f.pump) && MarkedIn(f, s, took) && Running(f.pump, s, o, h) && IsCallee(i, o, h)
    ensures MarkedIn(Step(f, i), s, took || (IsPumpCpi(i) && i.stackHeight == Some(h + 1)))
  {
    OutGrows(f, i);
    StepMarks(f, i, s, o, h, took);
  }

  lemma MarkedNext(items: seq<Item>, p: nat, k: nat, m: nat, s: nat, f: Fold)
    requires Calls(items, p, k) && p < m < k && f == Run(items[..m]) && MarkedIn(f, s, Took(items, p, m))
    requires Running(f.pump, s, items[p].outerIdx, items[p].stackHeight.value)
    ensures MarkedIn(Step(f, items[m]), s, Took(items, p, m + 1))
  {
    FramesAreDistinguished(items[..m]);
    InsideIsDeeper(items, p, m, k);
    TookNext(items, p, k, m);
    MarkedStep(f, items[m], s, items[p].outerIdx, items[p].stackHeight.value, Took(items, p, m));
  }

  lemma {:induction false} CallerIsMarked(items: seq<Item>, p: nat, k: nat, m: nat)
    requires KnownHeights(items) && Calls(items, p, k) && IsPumpFrame(items[p]) && p < m <= k
    ensures MarkedAfter(items, p, Run(items).slots[p], m)
    decreases m
  {
    if m == p + 1 {
      MarkedFirst(items, p);
    } else {
      CallerIsMarked(items, p, k, m - 1);
      CallerIsRunning(items, p, k, m - 1);
      MarkedNext(items, p, k, m - 1, Run(items).slots[p], Run(items[..m - 1]));
      CallTree.RunNext(items, m - 1);
    }
  }

  // Where an event-CPI goes: to the output of the frame it finds, if that is free and the two agree.
  lemma CpiGoes(f: Fold, i: Item, s: nat, took: bool)
    requires TargetsFit(f) && IsPumpCpi(i) && Finds(f.pump, i, s) && Marked(f.pump, s, took) && s < |f.out|
    ensures Step(f, i).slots[|f.slots|] == if !took && MergeEvent(f.out[s], i.event).Some? then s else |f.out|
  {
  }

  // Item `b` joins item `a`, if `a` is free and the two events agree.
  ghost predicate JoinsUnless(items: seq<Item>, a: nat, b: nat, taken: bool)
    requires a < b < |items|
  {
    var f, s := Run(items[..b]), Run(items).slots[a];
    && s < |f.out|
    && Run(items).slots[b] == if !taken && MergeEvent(f.out[s], items[b].event).Some? then s else |f.out|
  }

  /**
   In a list: an event-CPI joins the output of its caller if and only if that made none before and the
   two events agree; otherwise it gets an output of its own.
   */
  lemma EventCpiJoinsCaller(items: seq<Item>, p: nat, k: nat)
    requires KnownHeights(items) && Calls(items, p, k) && IsPumpFrame(items[p]) && IsPumpCpi(items[k])
    ensures JoinsUnless(items, p, k, Took(items, p, k))
  {
    SelectFindsCaller(items, p, k);
    CallerIsMarked(items, p, k, k);
    CallTree.RunNext(items, k);
    SlotStays(items, k, k + 1);
    CpiGoes(Run(items[..k]), items[k], Run(items).slots[p], Took(items, p, k));
  }

  // ----- In a tree of calls -----

  lemma InsideIsDeeper(items: seq<Item>, a: nat, b: nat, k: nat)
    requires Calls(items, a, k) && a < b <= k
    ensures IsCallee(items[b], items[a].outerIdx, items[a].stackHeight.value)
  {
  }

  // An item has one caller in a list.
  lemma OneCaller(items: seq<Item>, a: nat, b: nat, k: nat)
    requires Calls(items, a, k) && Calls(items, b, k)
    ensures a == b
  {
    if a < b {
      InsideIsDeeper(items, a, b, k);
    } else if b < a {
      InsideIsDeeper(items, b, a, k);
    }
  }

  // Every event-CPI of a trade was made by a call that was recorded.
  ghost predicate CallersRecorded(outers: Trees) {
    forall k :: k in TransactionItems(outers, 0) && IsPumpCpi(k) ==> exists q :: CalledIn(outers, 0, q, k)
  }

  // In the tree, `p` made an event-CPI before `k`.
  ghost predicate TookBefore(outers: Trees, p: Item, k: Item) {
    exists e :: IsPumpCpi(e) && CalledIn(outers, 0, p, e) && Precedes(e, k)
  }

  // With its callers recorded, an event-CPI called by heights alone is called in the tree.
  lemma CallsAreCalled(outers: Trees, p: nat, e: nat)
    requires CallersRecorded(outers) && Calls(TransactionItems(outers, 0), p, e) && IsPumpCpi(TransactionItems(outers, 0)[e])
    ensures CalledIn(outers, 0, TransactionItems(outers, 0)[p], TransactionItems(outers, 0)[e])
  {
    var items := TransactionItems(outers, 0);
    var q :| CalledIn(outers, 0, q, items[e]);
    var a, b := ListedCall(outers, q, items[e]);
    TransactionAscends(outers, 0);
    AscendingOnce(items, b, e);
    OneCaller(items, a, p, e);
  }

  lemma ListedCall(outers: Trees, p: Item, k: Item) returns (a: nat, b: nat)
    requires CalledIn(outers, 0, p, k)
    ensures var items := TransactionItems(outers, 0);
            a < b < |items| && items[a] == p && items[b] == k && Calls(items, a, b)
  {
    CalledInIsCalls(outers, 0, p, k);
    var items := TransactionItems(outers, 0);
    a, b :| 0 <= a < b < |items| && items[a] == p && items[b] == k && Calls(items, a, b);
  }

  lemma AscendingOrder(items: seq<Item>, a: nat, b: nat)
    requires InExecutionOrder(items) && a < |items| && b < |items|
    ensures Precedes(items[a], items[b]) <==> a < b
  {
    assert a < b ==> Precedes(items[a], items[b]);
    assert b < a ==> Precedes(items[b], items[a]);
  }

  lemma AscendingOnce(items: seq<Item>, a: nat, b: nat)
    requires InExecutionOrder(items) && a < |items| && b < |items| && items[a] == items[b]
    ensures a == b
  {
    AscendingOrder(items, a, b);
    AscendingOrder(items, b, a);
  }

  lemma TookInTree(outers: Trees, p: nat, k: nat)
    requires CallersRecorded(outers) && p < k < |TransactionItems(outers, 0)|
    ensures var items := TransactionItems(outers, 0);
            Took(items, p, k) <==> TookBefore(outers, items[p], items[k])
  {
    var items := TransactionItems(outers, 0);
    TransactionAscends(outers, 0);
    if Took(items, p, k) {
      var e: nat :| p < e < k && IsPumpCpi(items[e]) && Calls(items, p, e);
      CallsAreCalled(outers, p, e);
      AscendingOrder(items, e, k);
    }
    if TookBefore(outers, items[p], items[k]) {
      var e :| IsPumpCpi(e) && CalledIn(outers, 0, items[p], e) && Precedes(e, items[k]);
      var a, b := ListedCall(outers, items[p], e);
      AscendingOnce(items, a, p);
      AscendingOrder(items, b, k);
    }
  }

  /**
   For every transaction whose event-CPIs have recorded callers, and every collection order: the
   event-CPI `k` of a recorded trade `p` joins the output of `p` if and only if `p` made no event-CPI
   before and the two events agree.
   */
  lemma FirstEventCpiJoins(outers: Trees, collected: seq<Item>, p: Item, k: Item)
    requires multiset(collected) == multiset(TransactionItems(outers, 0)) && CallersRecorded(outers)
    requires CalledIn(outers, 0, p, k) && IsPumpFrame(p) && IsPumpCpi(k)
    ensures var items := Sort(collected);
            exists a, b :: 0 <= a < b < |items| && items[a] == p && items[b] == k && JoinsUnless(items, a, b, TookBefore(outers, p, k))
  {
    SortRecoversExecution(outers, collected);
    var a, b := CallIsInList(outers, collected, p, k);
    EventCpiJoinsCaller(Sort(collected), a, b);
    TookInTree(outers, a, b);
  }
}
