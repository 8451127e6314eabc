/**
 Which Pump frame an event-CPI finds, whether or not its caller was recorded: the frame of the last call
 one level up that no later frame or outer instruction has closed, be it still running or not.
 */
module StaleFrames {
  import opened Prelude
  import opened InstructionMerge
  import opened InstructionMergeProofs
  import opened CallForests
  import opened CallTree
  import opened EventCpis

  // An outer instruction closes every frame; another frame closes those that are not below it.
  predicate Closes(i: Item, p: Item) {
    i.innerIdx.None?
    || (IsPumpFrame(i) && (i.outerIdx != p.outerIdx || i.stackHeight.None? || p.stackHeight.None?
                           || p.stackHeight.value >= i.stackHeight.value))
  }

  /** Item `p` is a frame, and nothing before item `k` has closed it. */
  ghost predicate Standing(items: seq<Item>, p: nat, k: nat) {
    p < k <= |items| && IsPumpFrame(items[p]) && forall q :: p < q < k ==> !Closes(items[q], items[p])
  }

  // As far as the heights tell, `p` may have called `k`.
  predicate OneUp(p: Item, k: Item) {
    p.outerIdx == k.outerIdx && p.stackHeight.Some? && k.stackHeight == Some(p.stackHeight.value + 1)
  }

  // ----- The stack as a list of items -----

  // The items of the frames that are left when the ended ones on top are popped.
  function OpenItems(items: seq<Item>, stack: seq<nat>, i: Item): (r: seq<nat>)
    requires forall j :: 0 <= j < |stack| ==> stack[j] < |items| && items[stack[j]].stackHeight.Some?
    requires i.stackHeight.Some?
    ensures r <= stack
  {
    if stack == [] then []
    else if items[stack[|stack| - 1]].outerIdx != i.outerIdx || items[stack[|stack| - 1]].stackHeight.value >= i.stackHeight.value
    then OpenItems(items, stack[..|stack| - 1], i)
    else stack
  }

  function StackOf(items: seq<Item>, k: nat): (r: seq<nat>)
    requires k <= |items| && forall j :: 0 <= j < |items| ==> items[j].stackHeight.Some?
    ensures forall j :: 0 <= j < |r| ==> r[j] < k
  {
    if k == 0 then []
    else if items[k - 1].innerIdx.None? then if IsPumpFrame(items[k - 1]) then [k - 1] else []
    else if IsPumpFrame(items[k - 1]) then OpenItems(items, StackOf(items, k - 1), items[k - 1]) + [k - 1]
    else StackOf(items, k - 1)
  }

  // `t` is the frame of item `p`.
  ghost predicate IsFrameOf(t: Target, items: seq<Item>, slots: seq<nat>, p: nat) {
    p < |items| && p < |slots| && t.outerIdx == items[p].outerIdx && t.stackHeight == items[p].stackHeight && t.resultIdx == slots[p]
  }

  ghost predicate Matches(ts: seq<Target>, stack: seq<nat>, items: seq<Item>, slots: seq<nat>) {
    |ts| == |stack| && forall j :: 0 <= j < |ts| ==> IsFrameOf(ts[j], items, slots, stack[j])
  }

  lemma {:induction false} OpenMatches(ts: seq<Target>, stack: seq<nat>, items: seq<Item>, slots: seq<nat>, i: Item)
    requires Matches(ts, stack, items, slots) && KnownHeights(items) && i.stackHeight.Some?
    ensures Matches(Open(ts, i), OpenItems(items, stack, i), items, slots)
  {
    if ts != [] {
      var n := |ts| - 1;
      assert IsFrameOf(ts[n], items, slots, stack[n]);
      if Ended(ts[n], i) {
        OpenMatches(ts[..n], stack[..n], items, slots, i);
      }
    }
  }

  lemma MatchesMore(ts: seq<Target>, stack: seq<nat>, items: seq<Item>, slots: seq<nat>, t: Target, p: nat)
    requires Matches(ts, stack, items, slots) && IsFrameOf(t, items, slots, p)
    ensures Matches(ts + [t], stack + [p], items, slots)
  {
  }

  // Marking a frame changes nothing here.
  lemma MatchesMarked(ts: seq<Target>, stack: seq<nat>, items: seq<Item>, slots: seq<nat>, j: nat)
    requires Matches(ts, stack, items, slots) && j < |ts|
    ensures Matches(ts[j := ts[j].(consumed := true)], stack, items, slots)
  {
  }

  lemma PushedFrame(f: Fold, i: Item, items: seq<Item>, slots: seq<nat>)
    requires TargetsFit(f) && IsPumpFrame(i) && Step(f, i).slots <= slots && |f.slots| < |items| && items[|f.slots|] == i
    ensures IsFrameOf(FrameOf(i, |f.out|), items, slots, |f.slots|)
  {
    assert Step(f, i).slots[|f.slots|] == |f.out|;
  }

  lemma StepMatches(f: Fold, i: Item, stack: seq<nat>, items: seq<Item>, slots: seq<nat>)
    requires TargetsFit(f) && KnownHeights(items) && |f.slots| < |items| && items[|f.slots|] == i && Step(f, i).slots <= slots
    requires Matches(f.pump, stack, items, slots)
    ensures i.innerIdx.None? ==> Matches(Step(f, i).pump, if IsPumpFrame(i) then [|f.slots|] else [], items, slots)
    ensures i.innerIdx.Some? && IsPumpFrame(i) ==>
              Matches(Step(f, i).pump, OpenItems(items, stack, i) + [|f.slots|], items, slots)
    ensures i.innerIdx.Some? && !IsPumpFrame(i) ==> Matches(Step(f, i).pump, stack, items, slots)
  {
    if IsPumpFrame(i) {
      PushedFrame(f, i, items, slots);
      OpenMatches(f.pump, stack, items, slots, i);
      MatchesMore(Open(f.pump, i), OpenItems(items, stack, i), items, slots, FrameOf(i, |f.out|), |f.slots|);
    } else if i.innerIdx.Some? && IsPumpBranch(i) {
      var found := Select(f.pump, i);
      if found.Some? {
        MatchesMarked(f.pump, stack, items, slots, found.value);
      }
    }
  }

  /** The program's stack is that list, item by item. */
  lemma {:induction false} StackMatches(items: seq<Item>, k: nat)
    requires KnownHeights(items) && k <= |items|
    ensures Matches(Run(items[..k]).pump, StackOf(items, k), items, Run(items).slots)
  {
    if k > 0 {
      StackMatches(items, k - 1);
      RunNext(items, k - 1);
      RunSlots(items, k);
      StepMatches(Run(items[..k - 1]), items[k - 1], StackOf(items, k - 1), items, Run(items).slots);
    }
  }

  // ----- Which items are on it -----

  // All of one outer instruction, each higher than those before.
  ghost predicate Climbs(items: seq<Item>, stack: seq<nat>) {
    && (forall j :: 0 <= j < |stack| ==> stack[j] < |items|)
    && forall i, j :: 0 <= i < j < |stack| ==> Below(items[stack[i]], items[stack[j]])
  }

  predicate Below(a: Item, b: Item) {
    a.outerIdx == b.outerIdx && a.stackHeight.Some? && b.stackHeight.Some? && a.stackHeight.value < b.stackHeight.value
  }

  // Popping the ended frames on top removes exactly those that the new frame closes.
  lemma {:induction false} OpenKeepsExactly(items: seq<Item>, stack: seq<nat>, i: Item, p: nat)
    requires KnownHeights(items) && Climbs(items, stack) && i.stackHeight.Some? && p < |items|
    ensures p in OpenItems(items, stack, i) <==> p in stack && Below(items[p], i)
  {
    if stack != [] {
      var n := |stack| - 1;
      if items[stack[n]].outerIdx != i.outerIdx || items[stack[n]].stackHeight.value >= i.stackHeight.value {
        OpenKeepsExactly(items, stack[..n], i, p);
        assert p in stack <==> p in stack[..n] || p == stack[n];
      } else if p in stack {
        var j :| 0 <= j < |stack| && stack[j] == p;
        assert j < n ==> Below(items[stack[j]], items[stack[n]]);
      }
    }
  }

  lemma OpenClimbs(items: seq<Item>, stack: seq<nat>, i: Item, k: nat)
    requires KnownHeights(items) && Climbs(items, stack) && i.stackHeight.Some? && k < |items| && items[k] == i
    ensures Climbs(items, OpenItems(items, stack, i) + [k])
  {
    var open := OpenItems(items, stack, i);
    forall j | 0 <= j < |open|
      ensures Below(items[open[j]], i)
    {
      OpenKeepsExactly(items, stack, i, open[j]);
    }
  }

  lemma {:induction false} StackClimbs(items: seq<Item>, k: nat)
    requires KnownHeights(items) && k <= |items|
    ensures Climbs(items, StackOf(items, k))
  {
    if k > 0 {
      StackClimbs(items, k - 1);
      if items[k - 1].innerIdx.Some? && IsPumpFrame(items[k - 1]) {
        OpenClimbs(items, StackOf(items, k - 1), items[k - 1], k - 1);
      }
    }
  }

  lemma StandingNext(items: seq<Item>, p: nat, k: nat)
    requires k < |items|
    ensures Standing(items, p, k + 1) <==>
            if p == k then IsPumpFrame(items[k]) else Standing(items, p, k) && !Closes(items[k], items[p])
  {
  }

  lemma {:induction false} OnStackExactly(items: seq<Item>, k: nat, p: nat)
    requires KnownHeights(items) && k <= |items| && p < |items|
    ensures p in StackOf(items, k) <==> Standing(items, p, k)
  {
    if k > 0 {
      OnStackExactly(items, k - 1, p);
      StandingNext(items, p, k - 1);
      if items[k - 1].innerIdx.Some? && IsPumpFrame(items[k - 1]) {
        StackClimbs(items, k - 1);
        OpenKeepsExactly(items, StackOf(items, k - 1), items[k - 1], p);
        assert p in OpenItems(items, StackOf(items, k - 1), items[k - 1]) + [k - 1] <==>
               p in OpenItems(items, StackOf(items, k - 1), items[k - 1]) || p == k - 1;
      }
    }
  }

  // ----- Which one is found -----

  lemma LaterCloses(p: Item, q: Item, k: Item)
    requires IsPumpFrame(q) && OneUp(p, k) && OneUp(q, k)
    ensures Closes(q, p)
  {
  }

  lemma OnlyOneUp(items: seq<Item>, p: nat, q: nat, k: nat)
    requires Standing(items, p, k) && Standing(items, q, k) && k < |items| && OneUp(items[p], items[k]) && OneUp(items[q], items[k])
    ensures p == q
  {
    LaterCloses(items[p], items[q], items[k]);
    LaterCloses(items[q], items[p], items[k]);
  }

  // The frame at `j` may have called `k`.
  lemma FoundStands(items: seq<Item>, k: nat, j: nat)
    requires KnownHeights(items) && k < |items| && j < |Run(items[..k]).pump| && MayCall(Run(items[..k]).pump[j], items[k])
    ensures exists p: nat :: Standing(items, p, k) && OneUp(items[p], items[k]) && Run(items[..k]).pump[j].resultIdx == Run(items).slots[p]
  {
    StackMatches(items, k);
    var p := StackOf(items, k)[j];
    assert IsFrameOf(Run(items[..k]).pump[j], items, Run(items).slots, p);
    OnStackExactly(items, k, p);
  }

  /**
   In a list: an event-CPI finds a frame if and only if one stands one level up in its outer instruction;
   that is one item's alone, and its output is what is found.
   */
  lemma FoundExactly(items: seq<Item>, k: nat)
    requires KnownHeights(items) && k < |items|
    ensures Select(Run(items[..k]).pump, items[k]).Some? <==> exists p: nat :: Standing(items, p, k) && OneUp(items[p], items[k])
    ensures forall p: nat :: Standing(items, p, k) && OneUp(items[p], items[k]) ==>
              Finds(Run(items[..k]).pump, items[k], Run(items).slots[p])
  {
    var found := Select(Run(items[..k]).pump, items[k]);
    if found.Some? {
      FoundStands(items, k, found.value);
    }
    forall p: nat | Standing(items, p, k) && OneUp(items[p], items[k])
      ensures Finds(Run(items[..k]).pump, items[k], Run(items).slots[p])
    {
      StandingIsFound(items, p, k);
    }
  }

  lemma StandingIsFound(items: seq<Item>, p: nat, k: nat)
    requires KnownHeights(items) && k < |items| && Standing(items, p, k) && OneUp(items[p], items[k])
    ensures Finds(Run(items[..k]).pump, items[k], Run(items).slots[p])
  {
    var ts := Run(items[..k]).pump;
    StackMatches(items, k);
    OnStackExactly(items, k, p);
    var j :| 0 <= j < |StackOf(items, k)| && StackOf(items, k)[j] == p;
    assert IsFrameOf(ts[j], items, Run(items).slots, p);
    assert MayCall(ts[j], items[k]);
    FoundStands(items, k, Select(ts, items[k]).value);
    var q: nat :| Standing(items, q, k) && OneUp(items[q], items[k])
             && ts[Select(ts, items[k]).value].resultIdx == Run(items).slots[q];
    OnlyOneUp(items, p, q, k);
  }

  // ----- And when it is the caller's -----

  lemma CallerStands(items: seq<Item>, p: nat, k: nat)
    requires Calls(items, p, k) && IsPumpFrame(items[p])
    ensures Standing(items, p, k) && OneUp(items[p], items[k])
  {
    assert IsCallee(items[k], items[p].outerIdx, items[p].stackHeight.value);
    forall q | p < q < k
      ensures !Closes(items[q], items[p])
    {
      assert IsCallee(items[q], items[p].outerIdx, items[p].stackHeight.value);
    }
  }

  // The direct caller of `k` was recorded as a frame.
  ghost predicate CallerIsFrame(outers: Trees, k: Item) {
    exists q :: CalledIn(outers, 0, q, k) && IsPumpFrame(q)
  }

  /**
   For every forest of calls and every collection order: the frame that an event-CPI finds is that of its
   direct caller if and only if that caller was recorded as a frame. Otherwise it is a stale one.
   */
  lemma FoundIsCallersExactly(outers: Trees, collected: seq<Item>, p: nat, k: nat)
    requires multiset(collected) == multiset(TransactionItems(outers, 0)) && k < |Sort(collected)|
    requires Standing(Sort(collected), p, k) && OneUp(Sort(collected)[p], Sort(collected)[k])
    ensures CalledIn(outers, 0, Sort(collected)[p], Sort(collected)[k]) <==> CallerIsFrame(outers, Sort(collected)[k])
  {
    var items := Sort(collected);
    if q :| CalledIn(outers, 0, q, items[k]) && IsPumpFrame(q) {
      var a, b := CallIsInList(outers, collected, q, items[k]);
      SortRecoversExecution(outers, collected);
      TransactionAscends(outers, 0);
      AscendingOnce(items, b, k);
      CallerStands(items, a, k);
      OnlyOneUp(items, p, a, k);
    }
  }

  // An outer instruction makes a recorded trade and then an unrecorded call, which makes an event-CPI.
  function Unrecorded(trade: Event, event: Event): Trees {
    Cons(Call(Made(None, false), Cons(Call(Made(Some(trade), false), Nil), Cons(Call(Made(None, false), Cons(Call(Made(Some(event), true), Nil), Nil)), Nil))), Nil)
  }

  /** Its event-CPI finds the frame of the trade before, which did not call it. */
  lemma StaleFrameIsFound(trade: Event, event: Event)
    requires IsPumpTrade(trade) && IsPumpTrade(event) && trade.ixName != ""
    ensures var items := TransactionItems(Unrecorded(trade, event), 0);
            && |items| == 2 && IsPumpFrame(items[0]) && IsPumpCpi(items[1])
            && Finds(Run(items[..1]).pump, items[1], Run(items).slots[0])
            && !CallerIsFrame(Unrecorded(trade, event), items[1])
  {
    var outers := Unrecorded(trade, event);
    var items := UnrecordedItems(trade, event);
    assert Standing(items, 0, 1) && OneUp(items[0], items[1]);
    StandingIsFound(items, 0, 1);
    forall q
      ensures !CalledIn(outers, 0, q, items[1])
    {
      UnrecordedCalls(trade, event, q, items[1]);
    }
  }

  lemma UnrecordedItems(trade: Event, event: Event) returns (items: seq<Item>)
    ensures items == TransactionItems(Unrecorded(trade, event), 0)
    ensures items == [Item(0, Some(0), Some(2), false, trade), Item(0, Some(2), Some(3), true, event)]
  {
    items := TransactionItems(Unrecorded(trade, event), 0);
    var last := Cons(Call(Made(Some(event), true), Nil), Nil);
    var second := Cons(Call(Made(None, false), last), Nil);
    assert Items(last, 0, 2, 3) == [Item(0, Some(2), Some(3), true, event)];
    assert Size<Made>(Nil) == 0;
    assert Items(second, 0, 1, 2) == [Item(0, Some(2), Some(3), true, event)];
    assert Items(Cons(Call(Made(Some(trade), false), Nil), second), 0, 0, 2) == [Item(0, Some(0), Some(2), false, trade), Item(0, Some(2), Some(3), true, event)];
  }

  lemma UnrecordedCalls(trade: Event, event: Event, p: Item, k: Item)
    ensures !CalledIn(Unrecorded(trade, event), 0, p, k)
  {
    var last := Cons(Call(Made(Some(event), true), Nil), Nil);
    var second := Cons(Call(Made(None, false), last), Nil);
    assert !Called(last, 0, 2, 3, [], p, k);
    assert !Called(second, 0, 1, 2, [], p, k);
    assert !Called(Cons(Call(Made(Some(trade), false), Nil), second), 0, 0, 2, [], p, k);
    assert !CalledIn(Nil, 1, p, k);
  }
}
