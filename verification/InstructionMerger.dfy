/** The merge as the program runs it: one pass over the sorted events, with its arrays as locals. */
module InstructionMerger {
  import opened Prelude
  import opened InstructionMerge
  import opened InstructionMergeProofs
  import MergedFields

  // The search from the top of a stack of frames.
  method FindFrame(targets: seq<Target>, item: Item) returns (found: Option<nat>)
    ensures found == Select(targets, item)
  {
    var i := |targets|;
    while i > 0
      invariant 0 <= i <= |targets|
      invariant Select(targets, item) == Select(targets[..i], item)
    {
      i := i - 1;
      assert targets[..i + 1][..i] == targets[..i];
      if targets[i].outerIdx == item.outerIdx
         && (targets[i].stackHeight.None? || item.stackHeight.None?
             || item.stackHeight.value == targets[i].stackHeight.value + 1) {
        return Some(i);
      }
    }
    found := None;
  }

  // Frames that have ended are popped; an unknown height empties the stack.
  method PopEnded(targets: seq<Target>, item: Item) returns (rest: seq<Target>)
    ensures rest == Open(targets, item)
  {
    rest := targets;
    if item.stackHeight.None? {
      return [];
    }
    while |rest| > 0
      invariant rest <= targets && Open(targets, item) == Open(rest, item)
    {
      var last := rest[|rest| - 1];
      if last.outerIdx != item.outerIdx
         || (last.stackHeight.Some? && last.stackHeight.value >= item.stackHeight.value) {
        rest := rest[..|rest| - 1];
      } else {
        break;
      }
    }
  }

  // The output an item may be merged into (-1 if none), and the frames after it.
  method Route(item: Item, out: seq<Event>, outerTarget: Option<(nat, nat)>, pumpTargets: seq<Target>, dlmmTargets: seq<Target>,
               ghost f: Fold)
    returns (target: int, outer: Option<(nat, nat)>, pump: seq<Target>, dlmm: seq<Target>)
    requires TargetsFit(f)
    requires out == f.out && outerTarget == f.outerTarget && pumpTargets == f.pump && dlmmTargets == f.dlmm
    ensures -1 <= target < |out|
    ensures Step(f, item) == PlaceIn(f, item, target).(outerTarget := outer, pump := pump, dlmm := dlmm)
  {
    target, outer, pump, dlmm := -1, outerTarget, pumpTargets, dlmmTargets;
    if item.innerIdx.None? {
      outer := Some((item.outerIdx, |out|));
      pump := if IsPumpTrade(item.event) then [FrameOf(item, |out|)] else [];
      dlmm := if IsDlmm(item.event) then [FrameOf(item, |out|)] else [];
    } else if IsPumpBranch(item) {
      if item.isEventCpi {
        var found := FindFrame(pump, item);
        if found.Some? && !pump[found.value].consumed {
          target := pump[found.value].resultIdx;
          pump := pump[found.value := pump[found.value].(consumed := true)];
        }
      } else {
        pump := PopEnded(pump, item);
        pump := pump + [FrameOf(item, |out|)];
      }
    } else if item.isEventCpi && IsDlmm(item.event) {
      var found := FindFrame(dlmm, item);
      if found.Some? {
        target := dlmm[found.value].resultIdx;
        dlmm := dlmm[..found.value + 1];
      }
    } else {
      if outer.Some? && outer.value.0 == item.outerIdx {
        target := outer.value.1;
      }
      if IsDlmm(item.event) {
        var merges := target >= 0 && MergeEvent(out[target], item.event).Some?;
        dlmm := PopEnded(dlmm, item);
        dlmm := dlmm + [FrameOf(item, if merges then target else |out|)];
      }
    }
  }

  // Into the chosen output if there is one and the events agree, else into one of its own.
  function PlaceIn(f: Fold, item: Item, target: int): Fold
    requires target < |f.out|
  {
    if target >= 0 && TryMerge(f, item, target).Some? then TryMerge(f, item, target).value else Append(f, item)
  }

  method MergeSorted(events: seq<Item>) returns (out: seq<Event>, ghost slots: seq<nat>, ghost creators: seq<nat>)
    ensures out == Run(events).out && slots == Run(events).slots && creators == Run(events).creators
  {
    out, slots, creators := [], [], [];
    var outerTarget: Option<(nat, nat)> := None;
    var pumpTargets: seq<Target> := [];
    var dlmmTargets: seq<Target> := [];
    for n := 0 to |events|
      invariant Fold(out, slots, creators, outerTarget, pumpTargets, dlmmTargets) == Run(events[..n])
    {
      var item := events[n];
      assert events[..n + 1][..n] == events[..n];
      var target;
      target, outerTarget, pumpTargets, dlmmTargets :=
        Route(item, out, outerTarget, pumpTargets, dlmmTargets, Run(events[..n]));
      var merged := if target >= 0 then MergeEvent(out[target], item.event) else None;
      if merged.Some? {
        slots := slots + [target];
        out := out[target := merged.value];
      } else {
        creators := creators + [|slots|];
        slots := slots + [|out|];
        out := out + [item.event];
      }
    }
    assert events[..|events|] == events;
  }

  /**
   Returns the merged events. `slots` and `creators` say where each sorted event went; what that
   means is `Conserves`, and what each output reports of the events that went there is `Reports`.
   */
  method MergeInstructionEvents(collected: seq<Item>) returns (out: seq<Event>, ghost slots: seq<nat>, ghost creators: seq<nat>)
    ensures out == Merged(collected)
    ensures var f := Run(Sort(collected));
            f.slots == slots && f.creators == creators && Conserves(Sort(collected), f) && AtMostOneCpi(Sort(collected), slots)
    ensures |out| <= |collected| == |slots| == |Sort(collected)|
    ensures forall s :: 0 <= s < |out| ==> MergedFields.Reports(out[s], MergedFields.Sent(Sort(collected), slots, s))
  {
    var events := Sort(collected);
    out, slots, creators := MergeSorted(events);
    RunConserves(events);
    forall s: nat | s < |out| ensures MergedFields.Reports(out[s], MergedFields.Sent(events, slots, s)) {
      MergedFields.OutputReports(events, s);
    }
    CreatorsAreFew(creators, |events|);
    SameLength(events, collected);
  }

  lemma SameLength(a: seq<Item>, b: seq<Item>)
    requires multiset(a) == multiset(b)
    ensures |a| == |b|
  {
    assert |multiset(a)| == |multiset(b)|;
  }

  // Strictly increasing indices below a bound are at most that many.
  lemma {:induction false} CreatorsAreFew(creators: seq<nat>, n: nat)
    requires forall s, t :: 0 <= s < t < |creators| ==> creators[s] < creators[t]
    requires forall s :: 0 <= s < |creators| ==> creators[s] < n
    ensures |creators| <= n
  {
    if creators != [] {
      CreatorsAreFew(creators[..|creators| - 1], creators[|creators| - 1]);
    }
  }
}
