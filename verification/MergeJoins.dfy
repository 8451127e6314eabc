/** Which events share an output, and what a call and its event then say together. */
module MergeJoins {
  import opened Prelude
  import opened InstructionMerge
  import opened InstructionMergeProofs
  import opened CallTree
  import opened EventCpis
  import opened MergedFields

  // ----- Outer instructions -----

  // The last outer instruction among the first `k` items.
  function LastOuter(items: seq<Item>, k: nat): (r: Option<nat>)
    requires k <= |items|
    ensures r.Some? ==> r.value < k && items[r.value].innerIdx.None?
  {
    if k == 0 then None else if items[k - 1].innerIdx.None? then Some(k - 1) else LastOuter(items, k - 1)
  }

  lemma {:induction false} OuterTargetIs(items: seq<Item>, k: nat)
    requires k <= |items|
    ensures Run(items[..k]).outerTarget ==
            match LastOuter(items, k) case None => None case Some(o) => Some((items[o].outerIdx, Run(items).slots[o]))
  {
    if k > 0 {
      OuterTargetIs(items, k - 1);
      RunNext(items, k - 1);
      RunSlots(items, k);
      OuterTargetNext(Run(items[..k - 1]), items[k - 1]);
    }
  }

  lemma OuterTargetNext(f: Fold, i: Item)
    requires TargetsFit(f)
    ensures Step(f, i).outerTarget == if i.innerIdx.None? then Some((i.outerIdx, Step(f, i).slots[|f.slots|])) else f.outerTarget
  {
  }

  // An inner item that is neither a frame or event-CPI of a Pump trade nor an event-CPI of DLMM.
  predicate IsPlain(i: Item) {
    i.innerIdx.Some? && !IsPumpBranch(i) && !(i.isEventCpi && IsDlmm(i.event))
  }

  /**
   In a list: any other inner event joins the output of its outer instruction if and only if that was
   recorded and the two agree; otherwise it gets an output of its own.
   */
  lemma PlainJoinsOuter(items: seq<Item>, k: nat)
    requires k < |items| && IsPlain(items[k])
    ensures var f, o := Run(items[..k]), LastOuter(items, k);
            var joins := o.Some? && items[o.value].outerIdx == items[k].outerIdx && Run(items).slots[o.value] < |f.out|
                         && MergeEvent(f.out[Run(items).slots[o.value]], items[k].event).Some?;
            Run(items).slots[k] == if joins then Run(items).slots[o.value] else |f.out|
  {
    OuterTargetIs(items, k);
    RunNext(items, k);
    SlotStays(items, k, k + 1);
  }

  // Item `b` joins item `a` if the two agree, else it stands alone.
  ghost predicate JoinsIfAgreed(items: seq<Item>, a: nat, b: nat)
    requires a < b < |items|
  {
    var f, s := Run(items[..b]), Run(items).slots[a];
    s < |f.out| && Run(items).slots[b] == if MergeEvent(f.out[s], items[b].event).Some? then s else |f.out|
  }

  /** In a list: an event-CPI of DLMM joins the output of its caller if and only if the two agree. */
  lemma DlmmCpiJoinsCaller(items: seq<Item>, p: nat, k: nat)
    requires KnownHeights(items) && Calls(items, p, k) && IsDlmmFrame(items[p]) && IsDlmmCpi(items[k])
    ensures JoinsIfAgreed(items, p, k)
  {
    SelectFindsCaller(items, p, k);
    RunNext(items, k);
    SlotStays(items, k, k + 1);
    DlmmCpiGoes(Run(items[..k]), items[k]);
  }

  lemma DlmmCpiGoes(f: Fold, i: Item)
    requires TargetsFit(f) && IsDlmmCpi(i) && Select(f.dlmm, i).Some?
    ensures var s := f.dlmm[Select(f.dlmm, i).value].resultIdx;
            Step(f, i).slots[|f.slots|] == if MergeEvent(f.out[s], i.event).Some? then s else |f.out|
  {
    assert Step(f, i) == StepDlmmCpi(f, i);
  }

  /** For every forest and every collection order: the same for the direct caller in the tree. */
  lemma DlmmCpiJoinsItsCaller(outers: Trees, collected: seq<Item>, p: Item, k: Item)
    requires multiset(collected) == multiset(TransactionItems(outers, 0)) && CalledIn(outers, 0, p, k)
    requires IsDlmmFrame(p) && IsDlmmCpi(k)
    ensures var items := Sort(collected);
            exists a, b :: 0 <= a < b < |items| && items[a] == p && items[b] == k && JoinsIfAgreed(items, a, b)
  {
    var a, b := CallIsInList(outers, collected, p, k);
    DlmmCpiJoinsCaller(Sort(collected), a, b);
  }

  // ----- Who can join a Pump trade -----

  // No output of an inner Pump frame is a target of other events.
  ghost predicate OtherTargets(items: seq<Item>, f: Fold) {
    && (f.outerTarget.Some? ==> TargetOf(items, f.creators, f.outerTarget.value.1))
    && forall j :: 0 <= j < |f.dlmm| ==> TargetOf(items, f.creators, f.dlmm[j].resultIdx)
  }

  ghost predicate TargetOf(items: seq<Item>, creators: seq<nat>, s: nat) {
    s < |creators| && creators[s] < |items| && (items[creators[s]].innerIdx.None? || IsDlmm(items[creators[s]].event))
  }

  lemma TargetsStay(items: seq<Item>, f: Fold, i: Item, g: Fold, dlmm: seq<Target>)
    requires OtherTargets(items, f) && f.creators <= g.creators && g.outerTarget == f.outerTarget && dlmm <= f.dlmm && g.dlmm == dlmm
    ensures OtherTargets(items + [i], g)
  {
    forall j | 0 <= j < |g.dlmm|
      ensures TargetOf(items + [i], g.creators, g.dlmm[j].resultIdx)
    {
      assert TargetOf(items, f.creators, f.dlmm[j].resultIdx);
    }
  }

  lemma OtherKeepsTargets(items: seq<Item>, f: Fold, i: Item)
    requires OtherTargets(items, f) && TargetsFit(f) && Conserves(items, f) && |f.slots| == |items|
    ensures OtherTargets(items + [i], StepOther(f, i))
  {
    var g := StepOther(f, i);
    var open := if IsDlmm(i.event) then Open(f.dlmm, i) else f.dlmm;
    TargetsStay(items, f, i, g.(dlmm := open), open);
    if IsDlmm(i.event) {
      var s := g.slots[|f.slots|];
      assert s == |f.out| ==> g.creators[s] == |items| && (items + [i])[|items|] == i;
      assert TargetOf(items + [i], g.creators, s);
      assert g.dlmm == open + [FrameOf(i, s)];
    }
  }

  lemma StepKeepsTargets(items: seq<Item>, f: Fold, i: Item)
    requires OtherTargets(items, f) && TargetsFit(f) && Conserves(items, f) && |f.slots| == |items|
    ensures OtherTargets(items + [i], Step(f, i))
  {
    if i.innerIdx.None? {
      assert Step(f, i).creators[|f.out|] == |items| && (items + [i])[|items|] == i;
    } else if IsPumpBranch(i) {
      TargetsStay(items, f, i, Step(f, i), f.dlmm);
    } else if i.isEventCpi && IsDlmm(i.event) {
      var found := Select(f.dlmm, i);
      TargetsStay(items, f, i, Step(f, i), if found.Some? then f.dlmm[..found.value + 1] else f.dlmm);
    } else {
      OtherKeepsTargets(items, f, i);
    }
  }

  lemma {:induction false} RunKeepsTargets(items: seq<Item>)
    ensures OtherTargets(items, Run(items))
  {
    if items != [] {
      var n := |items| - 1;
      RunKeepsTargets(items[..n]);
      RunConserves(items[..n]);
      StepKeepsTargets(items[..n], Run(items[..n]), items[n]);
      assert items[..n] + [items[n]] == items;
    }
  }

  lemma StepCreates(f: Fold, i: Item)
    requires TargetsFit(f) && |f.creators| == |f.out|
    ensures f.creators <= Step(f, i).creators && |Step(f, i).creators| == |Step(f, i).out|
    ensures IsPumpFrame(i) ==> Step(f, i).slots[|f.slots|] == |f.out| && Step(f, i).creators[|f.out|] == |f.slots|
  {
  }

  lemma {:induction false} CreatorsGrow(items: seq<Item>, m: nat)
    requires m <= |items|
    ensures |Run(items[..m]).creators| == |Run(items[..m]).out| && Run(items[..m]).creators <= Run(items).creators
    decreases |items| - m
  {
    RunConserves(items[..m]);
    if m == |items| {
      assert items[..m] == items;
    } else {
      CreatorsGrow(items, m + 1);
      RunNext(items, m);
      StepCreates(Run(items[..m]), items[m]);
    }
  }

  // A frame opens an output of its own.
  lemma FrameCreates(items: seq<Item>, p: nat)
    requires p < |items| && IsPumpFrame(items[p])
    ensures var s := Run(items).slots[p]; s < |Run(items).creators| && Run(items).creators[s] == p
  {
    RunNext(items, p);
    SlotStays(items, p, p + 1);
    CreatorsGrow(items, p);
    CreatorsGrow(items, p + 1);
    StepCreates(Run(items[..p]), items[p]);
  }

  // Where a step puts an item: into a new output, or that of a frame or of the outer instruction.
  lemma StepGoes(f: Fold, i: Item)
    requires TargetsFit(f)
    ensures var to := Step(f, i).slots[|f.slots|];
            || to == |f.out|
            || IsPumpCpi(i)
            || (f.outerTarget.Some? && to == f.outerTarget.value.1)
            || exists j :: 0 <= j < |f.dlmm| && f.dlmm[j].resultIdx == to
  {
    if i.innerIdx.Some? && !IsPumpBranch(i) && i.isEventCpi && IsDlmm(i.event) {
      var found := Select(f.dlmm, i);
    }
  }

  // An item that shares the output of trade `p` finds it there.
  lemma FindsOutput(items: seq<Item>, p: nat, j: nat)
    requires p < |items| && j < |items| && p != j && IsPumpFrame(items[p]) && Run(items).slots[j] == Run(items).slots[p]
    ensures var f, s := Run(items[..j]), Run(items).slots[p];
            && Step(f, items[j]).slots[|f.slots|] == s < |f.out| == |f.creators| && f.creators[s] == p < j
  {
    var f, s := Run(items[..j]), Run(items).slots[p];
    FrameCreates(items, p);
    RunNext(items, j);
    SlotStays(items, j, j + 1);
    CreatorsGrow(items, j);
    CreatorsGrow(items, j + 1);
    RunConserves(items[..j]);
    StepGoes(f, items[j]);
    StepFits(f, items[j]);
    if s == |f.out| {
      OwnOutput(f, items[j]);
    }
  }

  lemma StepFits(f: Fold, i: Item)
    requires TargetsFit(f)
    ensures Step(f, i).slots[|f.slots|] <= |f.out|
  {
  }

  lemma OnlyCpiSteps(items: seq<Item>, f: Fold, i: Item, s: nat)
    requires TargetsFit(f) && OtherTargets(items, f) && s < |f.out| == |f.creators| && f.creators[s] < |items|
    requires Step(f, i).slots[|f.slots|] == s
    requires items[f.creators[s]].innerIdx.Some? && !IsDlmm(items[f.creators[s]].event)
    ensures IsPumpCpi(i)
  {
    StepGoes(f, i);
    if !IsPumpCpi(i) {
      TargetIsOther(items, f, s);
    }
  }

  /** Nothing but an event-CPI of a Pump trade joins the output of an inner Pump trade. */
  lemma OnlyCpisJoin(items: seq<Item>, p: nat, j: nat)
    requires p < |items| && j < |items| && p != j && IsPumpFrame(items[p]) && items[p].innerIdx.Some?
    requires Run(items).slots[j] == Run(items).slots[p]
    ensures IsPumpCpi(items[j])
  {
    FindsOutput(items, p, j);
    RunKeepsTargets(items[..j]);
    OnlyCpiSteps(items[..j], Run(items[..j]), items[j], Run(items).slots[p]);
  }

  // The outer instruction's output and those of DLMM frames were opened by none of the inner Pump trades.
  lemma TargetIsOther(items: seq<Item>, f: Fold, s: nat)
    requires OtherTargets(items, f) && s < |f.creators|
    requires (f.outerTarget.Some? && s == f.outerTarget.value.1) || exists j :: 0 <= j < |f.dlmm| && f.dlmm[j].resultIdx == s
    ensures TargetOf(items, f.creators, s)
  {
  }

  lemma OwnOutput(f: Fold, i: Item)
    requires TargetsFit(f) && |f.creators| == |f.out| && Step(f, i).slots[|f.slots|] == |f.out|
    ensures |Step(f, i).creators| > |f.out| && Step(f, i).creators[|f.out|] == |f.slots|
  {
  }

  // ----- What a trade and its event-CPI say together -----

  lemma {:induction false} SentIs(items: seq<Item>, slots: seq<nat>, s: nat, p: nat, k: nat, n: nat)
    requires n <= |items| == |slots| && p < k < |items| && slots[p] == s && slots[k] == s
    requires forall j :: 0 <= j < |items| && slots[j] == s ==> j == p || j == k
    ensures Sent(items[..n], slots[..n], s) ==
            if n <= p then [] else if n <= k then [items[p].event] else [items[p].event, items[k].event]
  {
    if n > 0 {
      SentIs(items, slots, s, p, k, n - 1);
      assert items[..n][..n - 1] == items[..n - 1] && slots[..n][..n - 1] == slots[..n - 1];
    }
  }

  /** In a list: an inner trade that an event-CPI joined is those two events merged, and nothing else. */
  lemma TwoEventsMerged(items: seq<Item>, p: nat, k: nat)
    requires p < k < |items| && IsPumpFrame(items[p]) && items[p].innerIdx.Some? && IsPumpCpi(items[k])
    requires Run(items).slots[k] == Run(items).slots[p]
    ensures var s := Run(items).slots[p];
            s < |Run(items).out| && MergeEvent(items[p].event, items[k].event) == Some(Run(items).out[s])
  {
    var s, slots := Run(items).slots[p], Run(items).slots;
    RunConserves(items);
    SlotsExist(items, Run(items));
    forall j | 0 <= j < |items| && slots[j] == s
      ensures j == p || j == k
    {
      if j != p && j != k {
        OnlyCpisJoin(items, p, j);
      }
    }
    SentIs(items, slots, s, p, k, |items|);
    assert items[..|items|] == items && slots[..|items|] == slots;
    OutputIsMerged(items, s);
    assert [items[p].event, items[k].event][..1] == [items[p].event];
  }

  // The output of trade `p` in a run.
  function OutputOf(items: seq<Item>, p: nat): Event
    requires p < |items| && Run(items).slots[p] < |Run(items).out|
  {
    Run(items).out[Run(items).slots[p]]
  }

  lemma AmountsOfTwo(a: Event, b: Event)
    requires IsPumpFunTrade(a.name) && IsPumpFunTrade(b.name) && MergeEvent(a, b).Some?
    ensures var r, from := MergeEvent(a, b).value, if HasAmounts(b) then b else a;
            r.solAmount == from.solAmount && r.tokenAmount == from.tokenAmount && r.isBuy == a.isBuy == b.isBuy
  {
  }

  // `k` has joined `p`, and the two say the amounts of `k`, or of `p` if `k` has none.
  ghost predicate ReportsCpi(items: seq<Item>, a: nat, b: nat)
    requires a < b < |items|
  {
    && Run(items).slots[b] == Run(items).slots[a] < |Run(items).out|
    && var r, from := OutputOf(items, a), if HasAmounts(items[b].event) then items[b].event else items[a].event;
       r.solAmount == from.solAmount && r.tokenAmount == from.tokenAmount && r.isBuy == items[a].event.isBuy
  }

  lemma JoinedReportsCpi(items: seq<Item>, a: nat, b: nat)
    requires a < b < |items| && IsPumpFrame(items[a]) && items[a].innerIdx.Some? && IsPumpCpi(items[b])
    requires IsPumpFunTrade(items[a].event.name) && IsPumpFunTrade(items[b].event.name)
    requires JoinsUnless(items, a, b, false) && Run(items).slots[b] == Run(items).slots[a]
    ensures ReportsCpi(items, a, b)
  {
    TwoEventsMerged(items, a, b);
    AmountsOfTwo(items[a].event, items[b].event);
  }

  // At `b`, the output of `a` is still the event of `a` alone.
  lemma NothingJoinedYet(items: seq<Item>, a: nat, b: nat)
    requires KnownHeights(items) && Calls(items, a, b) && IsPumpFrame(items[a]) && items[a].innerIdx.Some? && !Took(items, a, b)
    requires IsPumpCpi(items[b])
    ensures var f, s := Run(items[..b]), Run(items).slots[a]; s < |f.out| && f.out[s] == items[a].event
  {
    var f, s := Run(items[..b]), Run(items).slots[a];
    EventCpiJoinsCaller(items, a, b);
    SlotStays(items, a, b);
    forall j | 0 <= j < b && f.slots[j] == s
      ensures j == a
    {
      if j != a {
        SlotStays(items, j, b);
        EarlierJoinTook(items, a, b, j);
      }
    }
    OneSent(items[..b], f.slots, s, a, b);
    assert items[..b][..b] == items[..b] && f.slots[..b] == f.slots;
    OutputIsMerged(items[..b], s);
  }

  lemma {:induction false} OneSent(items: seq<Item>, slots: seq<nat>, s: nat, a: nat, n: nat)
    requires n <= |items| == |slots| && a < |items| && slots[a] == s && forall j :: 0 <= j < |items| && slots[j] == s ==> j == a
    ensures Sent(items[..n], slots[..n], s) == if n <= a then [] else [items[a].event]
  {
    if n > 0 {
      OneSent(items, slots, s, a, n - 1);
      assert items[..n][..n - 1] == items[..n - 1] && slots[..n][..n - 1] == slots[..n - 1];
    }
  }

  // Whatever joined `a` before `b` was an event-CPI that `a` called.
  lemma EarlierJoinTook(items: seq<Item>, a: nat, b: nat, j: nat)
    requires KnownHeights(items) && Calls(items, a, b) && IsPumpFrame(items[a]) && items[a].innerIdx.Some?
    requires j < b && j != a && Run(items).slots[j] == Run(items).slots[a]
    ensures Took(items, a, b)
  {
    OnlyCpisJoin(items, a, j);
    FindsOutput(items, a, j);
    JoinedFromAbove(items, a, b, j);
  }

  // An event-CPI between that joined `a` is one level above it, so `a` called it.
  lemma JoinedFromAbove(items: seq<Item>, a: nat, b: nat, j: nat)
    requires KnownHeights(items) && Calls(items, a, b) && IsPumpFrame(items[a]) && items[a].innerIdx.Some?
    requires a < j < b && IsPumpCpi(items[j]) && Run(items).slots[j] == Run(items).slots[a]
    ensures Took(items, a, b)
  {
    JoinedAtHeight(items, a, b, j);
    assert Calls(items, a, j);
  }

  lemma JoinedAtHeight(items: seq<Item>, a: nat, b: nat, j: nat)
    requires KnownHeights(items) && Calls(items, a, b) && IsPumpFrame(items[a]) && items[a].innerIdx.Some?
    requires a < j < b && IsPumpCpi(items[j]) && Run(items).slots[j] == Run(items).slots[a]
    ensures items[j].stackHeight == Some(items[a].stackHeight.value + 1)
  {
    var f, s, o, h := Run(items[..j]), Run(items).slots[a], items[a].outerIdx, items[a].stackHeight.value;
    assert Running(f.pump, s, o, h) by {
      CallerIsRunning(items, a, b, j);
    }
    assert IsCallee(items[j], o, h) by {
      InsideIsDeeper(items, a, j, b);
    }
    assert s < |f.out| && Step(f, items[j]).slots[|f.slots|] == s by {
      FindsOutput(items, a, j);
    }
    FramesAreDistinguished(items[..j]);
    CpiFound(f, items[j], s, o, h);
  }

  lemma CpiFound(f: Fold, i: Item, s: nat, o: nat, h: nat)
    requires TargetsFit(f) && IsPumpCpi(i) && Running(f.pump, s, o, h) && Distinguished(f.pump) && IsCallee(i, o, h)
    requires s < |f.out| && Step(f, i).slots[|f.slots|] == s
    ensures i.stackHeight == Some(h + 1)
  {
    var x :| 0 <= x < |f.pump| && RunningAt(f.pump, x, s, o, h);
    var found := Select(f.pump, i);
    assert found.Some? && f.pump[found.value].resultIdx == s;
    assert found.value == x;
  }

  /**
   For every forest whose event-CPIs have recorded callers, and every collection order: an inner trade of
   Pump.fun whose first event-CPI agrees with it reports that event-CPI's amounts, or its own if that has none.
   */
  lemma FirstEventCpiReports(outers: Trees, collected: seq<Item>, p: Item, k: Item)
    requires multiset(collected) == multiset(TransactionItems(outers, 0)) && CallersRecorded(outers)
    requires CalledIn(outers, 0, p, k) && IsPumpFrame(p) && IsPumpCpi(k) && p.innerIdx.Some?
    requires IsPumpFunTrade(p.event.name) && IsPumpFunTrade(k.event.name)
    requires !TookBefore(outers, p, k) && MergeEvent(p.event, k.event).Some?
    ensures var items := Sort(collected);
            exists a, b :: 0 <= a < b < |items| && items[a] == p && items[b] == k && ReportsCpi(items, a, b)
  {
    SortRecoversExecution(outers, collected);
    var a, b := CallIsInList(outers, collected, p, k);
    var items := Sort(collected);
    TookInTree(outers, a, b);
    NothingJoinedYet(items, a, b);
    EventCpiJoinsCaller(items, a, b);
    JoinedReportsCpi(items, a, b);
  }
}
