/** The merge conserves events: where every collected event ends up. */
module InstructionMergeProofs {
  import opened Prelude
  import opened InstructionMerge

  // The events sent to output `s`, merged in order. None if there are none, or two disagree.
  function MergeOf(items: seq<Item>, slots: seq<nat>, s: nat): Option<Event>
    requires |items| == |slots|
  {
    if items == [] then None
    else
      var n := |items| - 1;
      var before := MergeOf(items[..n], slots[..n], s);
      if slots[n] != s then before
      else if before.None? then Some(items[n].event)
      else MergeEvent(before.value, items[n].event)
  }

  /**
   Where `items` went: `creators` lists, in order, the items that opened an output of their own;
   every other item went into an earlier output of its own outer instruction, and each output is
   the merge of the events sent to it.
   */
  ghost predicate Conserves(items: seq<Item>, f: Fold) {
    && |f.slots| == |items| && |f.creators| == |f.out|
    && (forall s, t :: 0 <= s < t < |f.creators| ==> f.creators[s] < f.creators[t])
    && (forall s :: 0 <= s < |f.creators| ==> f.creators[s] < |items| && f.slots[f.creators[s]] == s)
    && (forall k :: 0 <= k < |items| ==> Went(items, f.slots, f.creators, k))
    && (forall s :: 0 <= s < |f.out| ==> MergeOf(items, f.slots, s) == Some(f.out[s]))
  }

  ghost predicate Went(items: seq<Item>, slots: seq<nat>, creators: seq<nat>, k: nat)
    requires k < |items| == |slots|
  {
    && slots[k] < |creators| && creators[slots[k]] <= k
    && items[creators[slots[k]]].outerIdx == items[k].outerIdx
  }

  // Nothing has gone to an output that does not exist yet.
  lemma {:induction false} NothingBeyond(items: seq<Item>, slots: seq<nat>, s: nat)
    requires |items| == |slots| && forall k :: 0 <= k < |slots| ==> slots[k] < s
    ensures MergeOf(items, slots, s) == None
  {
    if items != [] {
      NothingBeyond(items[..|items| - 1], slots[..|items| - 1], s);
    }
  }

  lemma SlotsExist(items: seq<Item>, f: Fold)
    requires Conserves(items, f)
    ensures forall k :: 0 <= k < |f.slots| ==> f.slots[k] < |f.out|
  {
    forall k | 0 <= k < |items|
      ensures f.slots[k] < |f.out|
    {
      assert Went(items, f.slots, f.creators, k);
    }
  }

  lemma MergeOfNext(items: seq<Item>, slots: seq<nat>, i: Item, to: nat, s: nat)
    requires |items| == |slots|
    ensures MergeOf(items + [i], slots + [to], s) ==
            var before := MergeOf(items, slots, s);
            if to != s then before else if before.None? then Some(i.event) else MergeEvent(before.value, i.event)
  {
    assert (items + [i])[..|items|] == items && (slots + [to])[..|items|] == slots;
  }

  lemma AppendConserves(items: seq<Item>, f: Fold, i: Item)
    requires Conserves(items, f)
    ensures Conserves(items + [i], Append(f, i))
  {
    var g, items' := Append(f, i), items + [i];
    forall s | 0 <= s < |g.out|
      ensures MergeOf(items', g.slots, s) == Some(g.out[s])
    {
      MergeOfNext(items, f.slots, i, |f.out|, s);
      if s == |f.out| {
        SlotsExist(items, f);
        NothingBeyond(items, f.slots, s);
      }
    }
    forall k | 0 <= k < |items'|
      ensures Went(items', g.slots, g.creators, k)
    {
      assert k < |items| ==> Went(items, f.slots, f.creators, k);
    }
  }

  lemma MergeConserves(items: seq<Item>, f: Fold, i: Item, s: nat)
    requires Conserves(items, f) && s < |f.out| && TryMerge(f, i, s).Some?
    requires items[f.creators[s]].outerIdx == i.outerIdx
    ensures Conserves(items + [i], TryMerge(f, i, s).value)
  {
    var g, items' := TryMerge(f, i, s).value, items + [i];
    forall t | 0 <= t < |g.out|
      ensures MergeOf(items', g.slots, t) == Some(g.out[t])
    {
      MergeOfNext(items, f.slots, i, s, t);
    }
    forall k | 0 <= k < |items'|
      ensures Went(items', g.slots, g.creators, k)
    {
      assert k < |items| ==> Went(items, f.slots, f.creators, k);
    }
  }

  // ----- Frames -----

  predicate IsPumpCpi(i: Item) {
    i.innerIdx.Some? && i.isEventCpi && IsPumpTrade(i.event)
  }

  // A frame stands for an item that has been seen, in the output that item went to.
  ghost predicate Stands(items: seq<Item>, creators: seq<nat>, t: Target) {
    t.resultIdx < |creators| && creators[t.resultIdx] < |items| && items[creators[t.resultIdx]].outerIdx == t.outerIdx
  }

  ghost predicate AllStand(items: seq<Item>, creators: seq<nat>, ts: seq<Target>) {
    forall j :: 0 <= j < |ts| ==> Stands(items, creators, ts[j])
  }

  ghost predicate OuterStands(items: seq<Item>, f: Fold) {
    f.outerTarget.Some? ==>
      var (o, s) := f.outerTarget.value;
      s < |f.creators| && f.creators[s] < |items| && items[f.creators[s]].outerIdx == o
  }

  // Some event-CPI has gone to output `s`.
  ghost predicate Absorbed(items: seq<Item>, slots: seq<nat>, s: nat)
    requires |items| == |slots|
  {
    exists k :: 0 <= k < |items| && slots[k] == s && IsPumpCpi(items[k])
  }

  // An unconsumed trade frame has absorbed nothing; different frames are different outputs.
  ghost predicate Fresh(items: seq<Item>, slots: seq<nat>, pump: seq<Target>, outputs: nat)
    requires |items| == |slots|
  {
    && (forall j :: 0 <= j < |pump| && !pump[j].consumed ==> !Absorbed(items, slots, pump[j].resultIdx))
    && (forall j, k :: 0 <= j < k < |pump| ==> pump[j].resultIdx < pump[k].resultIdx)
    && (forall j :: 0 <= j < |pump| ==> pump[j].resultIdx < outputs)
  }

  /** No output holds two event-CPIs of Pump trades. */
  ghost predicate AtMostOneCpi(items: seq<Item>, slots: seq<nat>)
    requires |items| == |slots|
  {
    forall j, k :: 0 <= j < k < |items| && slots[j] == slots[k] && IsPumpCpi(items[j]) ==> !IsPumpCpi(items[k])
  }

  ghost predicate MergeInv(items: seq<Item>, f: Fold) {
    && Conserves(items, f) && OuterStands(items, f)
    && AllStand(items, f.creators, f.pump) && AllStand(items, f.creators, f.dlmm)
    && Fresh(items, f.slots, f.pump, |f.out|) && AtMostOneCpi(items, f.slots)
  }

  // Frames keep standing as items and outputs are added.
  lemma StillStand(items: seq<Item>, f: Fold, i: Item, g: Fold, ts: seq<Target>)
    requires AllStand(items, f.creators, ts) && f.creators <= g.creators
    ensures AllStand(items + [i], g.creators, ts)
  {
    forall j | 0 <= j < |ts|
      ensures Stands(items + [i], g.creators, ts[j])
    {
      assert Stands(items, f.creators, ts[j]);
    }
  }

  lemma AbsorbedNext(items: seq<Item>, slots: seq<nat>, i: Item, to: nat, s: nat)
    requires |items| == |slots|
    ensures Absorbed(items + [i], slots + [to], s) <==> Absorbed(items, slots, s) || (to == s && IsPumpCpi(i))
  {
    var items', slots' := items + [i], slots + [to];
    if Absorbed(items, slots, s) {
      var k :| 0 <= k < |items| && slots[k] == s && IsPumpCpi(items[k]);
      assert items'[k] == items[k] && slots'[k] == s;
    }
    if to == s && IsPumpCpi(i) {
      assert items'[|items|] == i && slots'[|items|] == s;
    }
  }

  lemma AtMostOneNext(items: seq<Item>, slots: seq<nat>, i: Item, to: nat)
    requires |items| == |slots| && AtMostOneCpi(items, slots)
    requires IsPumpCpi(i) ==> !Absorbed(items, slots, to)
    ensures AtMostOneCpi(items + [i], slots + [to])
  {
  }

  // Where the new item goes, and what that means for the frames that stay.
  lemma FreshNext(items: seq<Item>, f: Fold, i: Item, g: Fold, to: nat)
    requires |items| == |f.slots| && Fresh(items, f.slots, f.pump, |f.out|)
    requires g.slots == f.slots + [to] && |f.out| <= |g.out|
    requires g.pump == f.pump
    requires IsPumpCpi(i) ==> forall j :: 0 <= j < |f.pump| && !f.pump[j].consumed ==> f.pump[j].resultIdx != to
    ensures Fresh(items + [i], g.slots, g.pump, |g.out|)
  {
    forall j | 0 <= j < |g.pump| && !g.pump[j].consumed
      ensures !Absorbed(items + [i], g.slots, g.pump[j].resultIdx)
    {
      AbsorbedNext(items, f.slots, i, to, g.pump[j].resultIdx);
    }
  }

  lemma NewSlotIsEmpty(items: seq<Item>, f: Fold)
    requires Conserves(items, f)
    ensures !Absorbed(items, f.slots, |f.out|)
  {
    SlotsExist(items, f);
  }

  // An item that opens its own output, with the frames otherwise unchanged.
  lemma AppendKeeps(items: seq<Item>, f: Fold, i: Item)
    requires MergeInv(items, f)
    ensures MergeInv(items + [i], Append(f, i))
  {
    var g := Append(f, i);
    AppendConserves(items, f, i);
    StillStand(items, f, i, g, f.pump);
    StillStand(items, f, i, g, f.dlmm);
    NewSlotIsEmpty(items, f);
    AtMostOneNext(items, f.slots, i, |f.out|);
    FreshNext(items, f, i, g, |f.out|);
  }

  // An item that is not an event-CPI of a Pump trade, merged into output `s`.
  lemma PlainMergeKeeps(items: seq<Item>, f: Fold, i: Item, s: nat)
    requires MergeInv(items, f) && s < |f.out| && TryMerge(f, i, s).Some? && !IsPumpCpi(i)
    requires items[f.creators[s]].outerIdx == i.outerIdx
    ensures MergeInv(items + [i], TryMerge(f, i, s).value)
  {
    var g := TryMerge(f, i, s).value;
    MergeConserves(items, f, i, s);
    StillStand(items, f, i, g, f.pump);
    StillStand(items, f, i, g, f.dlmm);
    AtMostOneNext(items, f.slots, i, s);
    FreshNext(items, f, i, g, s);
  }

  // Fewer frames, or frames marked consumed, are no harder to keep.
  lemma FewerFrames(items: seq<Item>, f: Fold, pump: seq<Target>, dlmm: seq<Target>)
    requires MergeInv(items, f) && pump <= f.pump && dlmm <= f.dlmm
    ensures MergeInv(items, f.(pump := pump, dlmm := dlmm))
  {
  }

  lemma PushPumpFrame(items: seq<Item>, f: Fold, i: Item)
    requires MergeInv(items, f) && !IsPumpCpi(i)
    ensures MergeInv(items + [i], Append(f, i).(pump := f.pump + [FrameOf(i, |f.out|)]))
  {
    AppendKeeps(items, f, i);
    var g := Append(f, i).(pump := f.pump + [FrameOf(i, |f.out|)]);
    assert g.creators[|f.out|] == |items| && (items + [i])[|items|] == i;
    NewSlotIsEmpty(items, f);
    AbsorbedNext(items, f.slots, i, |f.out|, |f.out|);
  }

  lemma PushDlmmFrame(items: seq<Item>, f: Fold, t: Target)
    requires MergeInv(items, f) && Stands(items, f.creators, t)
    ensures MergeInv(items, f.(dlmm := f.dlmm + [t]))
  {
  }

  lemma OuterKeeps(items: seq<Item>, f: Fold, i: Item)
    requires MergeInv(items, f) && i.innerIdx == None
    ensures MergeInv(items + [i], StepOuter(f, i))
  {
    var s := |f.out|;
    FewerFrames(items, f, [], []);
    var f0 := f.(pump := [], dlmm := []);
    AppendKeeps(items, f0, i);
    PushPumpFrame(items, f0, i);
    assert [] + [FrameOf(i, s)] == [FrameOf(i, s)];
    var g := if IsPumpTrade(i.event) then Append(f0, i).(pump := [FrameOf(i, s)]) else Append(f0, i);
    assert MergeInv(items + [i], g);
    assert g.creators[s] == |items| && (items + [i])[|items|] == i;
    var g' := g.(outerTarget := Some((i.outerIdx, s)));
    assert MergeInv(items + [i], g');
    PushDlmmFrame(items + [i], g', FrameOf(i, s));
  }

  lemma ConsumeKeeps(items: seq<Item>, f: Fold, j: nat)
    requires MergeInv(items, f) && j < |f.pump|
    ensures MergeInv(items, f.(pump := f.pump[j := f.pump[j].(consumed := true)]))
  {
    var g := f.(pump := f.pump[j := f.pump[j].(consumed := true)]);
    forall k | 0 <= k < |g.pump|
      ensures Stands(items, g.creators, g.pump[k])
    {
      assert Stands(items, f.creators, f.pump[k]);
    }
  }

  lemma PumpCpiKeeps(items: seq<Item>, f: Fold, i: Item)
    requires MergeInv(items, f) && TargetsFit(f) && IsPumpCpi(i)
    ensures MergeInv(items + [i], StepPumpCpi(f, i))
  {
    var found := Select(f.pump, i);
    if found.Some? && !f.pump[found.value].consumed {
      var j := found.value;
      var s := f.pump[j].resultIdx;
      var g := f.(pump := f.pump[j := f.pump[j].(consumed := true)]);
      ConsumeKeeps(items, f, j);
      if TryMerge(g, i, s).Some? {
        CpiMergeKeeps(items, f, i, j);
      } else {
        AppendKeeps(items, g, i);
      }
    } else {
      AppendKeeps(items, f, i);
    }
  }

  // The consumed frame takes the event-CPI; no other unconsumed frame shares its output.
  lemma CpiMergeKeeps(items: seq<Item>, f: Fold, i: Item, j: nat)
    requires MergeInv(items, f) && j < |f.pump| && !f.pump[j].consumed && MayCall(f.pump[j], i)
    requires var g := f.(pump := f.pump[j := f.pump[j].(consumed := true)]);
             f.pump[j].resultIdx < |f.out| && TryMerge(g, i, f.pump[j].resultIdx).Some?
    ensures var g := f.(pump := f.pump[j := f.pump[j].(consumed := true)]);
            MergeInv(items + [i], TryMerge(g, i, f.pump[j].resultIdx).value)
  {
    var s := f.pump[j].resultIdx;
    var g := f.(pump := f.pump[j := f.pump[j].(consumed := true)]);
    ConsumeKeeps(items, f, j);
    assert Stands(items, f.creators, f.pump[j]);
    MergeConserves(items, g, i, s);
    var end := TryMerge(g, i, s).value;
    StillStand(items, g, i, end, g.pump);
    StillStand(items, g, i, end, g.dlmm);
    AtMostOneNext(items, f.slots, i, s);
    FreshNext(items, g, i, end, s);
  }

  lemma DlmmCpiKeeps(items: seq<Item>, f: Fold, i: Item)
    requires MergeInv(items, f) && TargetsFit(f) && !IsPumpCpi(i)
    ensures MergeInv(items + [i], StepDlmmCpi(f, i))
  {
    var found := Select(f.dlmm, i);
    if found.Some? {
      var j := found.value;
      var g := f.(dlmm := f.dlmm[..j + 1]);
      FewerFrames(items, f, f.pump, f.dlmm[..j + 1]);
      assert Stands(items, f.creators, f.dlmm[j]);
      if TryMerge(g, i, f.dlmm[j].resultIdx).Some? {
        PlainMergeKeeps(items, g, i, f.dlmm[j].resultIdx);
      } else {
        AppendKeeps(items, g, i);
      }
    } else {
      AppendKeeps(items, f, i);
    }
  }

  lemma OtherKeeps(items: seq<Item>, f: Fold, i: Item)
    requires MergeInv(items, f) && TargetsFit(f) && !IsPumpCpi(i)
    ensures MergeInv(items + [i], StepOther(f, i))
  {
    var merged := if f.outerTarget.Some? && f.outerTarget.value.0 == i.outerIdx then TryMerge(f, i, f.outerTarget.value.1)
                  else None;
    var g := if merged.Some? then merged.value else Append(f, i);
    if merged.Some? {
      PlainMergeKeeps(items, f, i, f.outerTarget.value.1);
    } else {
      AppendKeeps(items, f, i);
    }
    assert MergeInv(items + [i], g);
    if IsDlmm(i.event) {
      var g' := g.(dlmm := Open(f.dlmm, i));
      FewerFrames(items + [i], g, g.pump, Open(f.dlmm, i));
      var t := FrameOf(i, g.slots[|f.slots|]);
      assert Went(items + [i], g.slots, g.creators, |items|);
      PushDlmmFrame(items + [i], g', t);
    }
  }

  lemma StepKeeps(items: seq<Item>, f: Fold, i: Item)
    requires MergeInv(items, f) && TargetsFit(f)
    ensures MergeInv(items + [i], Step(f, i))
  {
    if i.innerIdx == None {
      OuterKeeps(items, f, i);
    } else if IsPumpBranch(i) {
      if i.isEventCpi {
        PumpCpiKeeps(items, f, i);
      } else {
        FewerFrames(items, f, Open(f.pump, i), f.dlmm);
        PushPumpFrame(items, f.(pump := Open(f.pump, i)), i);
      }
    } else if i.isEventCpi && IsDlmm(i.event) {
      DlmmCpiKeeps(items, f, i);
    } else {
      OtherKeeps(items, f, i);
    }
  }

  /** Conservation, for any events in any order. */
  lemma {:induction false} RunConserves(items: seq<Item>)
    ensures MergeInv(items, Run(items))
  {
    if items != [] {
      var n := |items| - 1;
      RunConserves(items[..n]);
      StepKeeps(items[..n], Run(items[..n]), items[n]);
      assert items[..n] + [items[n]] == items;
    }
  }
}
