/**
 Merging of parsed instruction events: items in execution order, two stacks of frames, and the
 rule by which an event-CPI is folded into the frame that emitted it.
 */
module InstructionMerge {
  import opened Prelude

  // Keys are numbers; 0 stands for absent, empty or the default public key.
  type Key = nat

  datatype Name =
    | PumpFunTrade | PumpFunBuy | PumpFunSell | PumpFunBuyExactSolIn
    | PumpFunCreateV2
    | PumpSwapBuy | PumpSwapSell
    | DlmmInitializePool | DlmmCreatePosition | DlmmClosePosition | DlmmOther(kind: nat)
    | Other(kind: nat)

  // `context` is what a DLMM instruction knows and its event does not.
  datatype Event = Event(name: Name, isBuy: bool, mint: Key, user: Key, pool: Key, context: Key, ixName: string,
                         solAmount: nat, tokenAmount: nat, createdBuy: bool)

  datatype Item = Item(outerIdx: nat, innerIdx: Option<nat>, stackHeight: Option<nat>, isEventCpi: bool, event: Event)

  predicate IsPumpFunTrade(n: Name) {
    n.PumpFunTrade? || n.PumpFunBuy? || n.PumpFunSell? || n.PumpFunBuyExactSolIn?
  }

  predicate IsPumpTrade(e: Event) {
    IsPumpFunTrade(e.name) || e.name.PumpSwapBuy? || e.name.PumpSwapSell?
  }

  predicate IsDlmm(e: Event) {
    e.name.DlmmInitializePool? || e.name.DlmmCreatePosition? || e.name.DlmmClosePosition? || e.name.DlmmOther?
  }

  // ----- Merging two events -----

  predicate Conflict(a: Key, b: Key) {
    a != 0 && b != 0 && a != b
  }

  function Put(to: Key, from: Key): Key {
    if from != 0 then from else to
  }

  function MergeTrade(base: Event, inner: Event): Event {
    var leg := inner.solAmount != 0 || inner.tokenAmount != 0;
    base.(mint := Put(base.mint, inner.mint),
    user := Put(base.user, inner.user),
    solAmount := if leg then inner.solAmount else base.solAmount,
    tokenAmount := if leg then inner.tokenAmount else base.tokenAmount,
    isBuy := if leg then inner.isBuy else base.isBuy,
    ixName := if inner.ixName != "" && (!IsVersioned(base.ixName) || IsVersioned(inner.ixName)) then inner.ixName
              else base.ixName,
    createdBuy := base.createdBuy || inner.createdBuy)
  }

  function MergeCreate(base: Event, inner: Event): Event {
    base.(mint := Put(base.mint, inner.mint),
    user := Put(base.user, inner.user),
    ixName := if inner.ixName != "" then inner.ixName else base.ixName)
  }

  // The event's fields replace the instruction's, except that its mint is filled in when missing.
  function MergeSwap(base: Event, inner: Event): Event {
    inner.(mint := if inner.mint == 0 then base.mint else inner.mint)
  }

  function MergeDlmm(base: Event, inner: Event): Event {
    match base.name
    case DlmmInitializePool => inner.(context := base.context)
    case DlmmCreatePosition => inner.(context := base.context)
    case DlmmClosePosition => inner.(pool := base.pool)
    case _ => inner
  }

  // None where the two events are not of one execution.
  function MergeEvent(base: Event, inner: Event): Option<Event> {
    if IsPumpFunTrade(base.name) && IsPumpFunTrade(inner.name) then
      if base.isBuy != inner.isBuy || Conflict(base.mint, inner.mint) || Conflict(base.user, inner.user) then None
      else Some(MergeTrade(base, inner))
    else if base.name != inner.name then None
    else if base.name.PumpFunCreateV2? then Some(MergeCreate(base, inner))
    else if base.name.PumpSwapBuy? || base.name.PumpSwapSell? then
      if Conflict(base.pool, inner.pool) || Conflict(base.user, inner.user) then None else Some(MergeSwap(base, inner))
    else if IsDlmm(base) then Some(MergeDlmm(base, inner))
    else Some(inner)
  }

  // ----- Execution order -----

  function InnerRank(i: Item): nat {
    if i.innerIdx == None then 0 else 1 + i.innerIdx.value
  }

  predicate Precedes(a: Item, b: Item) {
    a.outerIdx < b.outerIdx || (a.outerIdx == b.outerIdx && InnerRank(a) < InnerRank(b))
  }

  predicate InOrder(items: seq<Item>) {
    forall i, j :: 0 <= i < j < |items| ==> !Precedes(items[j], items[i])
  }

  // The library's stable sort.
  function Sort(items: seq<Item>): (r: seq<Item>)
    ensures InOrder(r) && multiset(r) == multiset(items)
  {
    if items == [] then []
    else
      assert items == [items[0]] + items[1..];
      InsertInOrder(items[0], Sort(items[1..]));
      Insert(items[0], Sort(items[1..]))
  }

  function Insert(i: Item, items: seq<Item>): (r: seq<Item>)
    ensures multiset(r) == multiset(items) + multiset{i}
  {
    if items == [] then [i]
    else if !Precedes(items[0], i) then [i] + items
    else
      assert items == [items[0]] + items[1..];
      [items[0]] + Insert(i, items[1..])
  }

  lemma {:induction false} InsertInOrder(i: Item, items: seq<Item>)
    requires InOrder(items)
    ensures InOrder(Insert(i, items))
  {
    if items != [] && Precedes(items[0], i) {
      var tail := Insert(i, items[1..]);
      InsertInOrder(i, items[1..]);
      forall j | 0 <= j < |tail|
        ensures !Precedes(tail[j], items[0])
      {
        assert tail[j] in multiset(tail);
        assert tail[j] == i || tail[j] in items[1..];
      }
    }
  }

  // ----- Frames -----

  datatype Target = Target(outerIdx: nat, stackHeight: Option<nat>, resultIdx: nat, consumed: bool)

  // Could `t` be the caller of `i`, as far as the heights tell?
  predicate MayCall(t: Target, i: Item) {
    t.outerIdx == i.outerIdx
    && (t.stackHeight == None || i.stackHeight == None || i.stackHeight.value == t.stackHeight.value + 1)
  }

  // The topmost frame that may have called `i`.
  function Select(ts: seq<Target>, i: Item): (r: Option<nat>)
    ensures r.Some? ==> r.value < |ts| && MayCall(ts[r.value], i) && forall j :: r.value < j < |ts| ==> !MayCall(ts[j], i)
    ensures r.None? ==> forall j :: 0 <= j < |ts| ==> !MayCall(ts[j], i)
  {
    if ts == [] then None
    else if MayCall(ts[|ts| - 1], i) then Some(|ts| - 1)
    else Select(ts[..|ts| - 1], i)
  }

  // A frame that has ended by the time `i` runs.
  predicate Ended(t: Target, i: Item)
    requires i.stackHeight.Some?
  {
    t.outerIdx != i.outerIdx || (t.stackHeight.Some? && t.stackHeight.value >= i.stackHeight.value)
  }

  function Open(ts: seq<Target>, i: Item): (r: seq<Target>)
    ensures r <= ts
  {
    if ts == [] || i.stackHeight == None then []
    else if Ended(ts[|ts| - 1], i) then Open(ts[..|ts| - 1], i)
    else ts
  }

  function FrameOf(i: Item, resultIdx: nat): Target {
    Target(i.outerIdx, i.stackHeight, resultIdx, false)
  }

  // ----- The fold -----

  // `slots[k]` is the output index the k-th item went to; `creators[s]` the item that opened output s.
  datatype Fold = Fold(out: seq<Event>, slots: seq<nat>, creators: seq<nat>,
                       outerTarget: Option<(nat, nat)>, pump: seq<Target>, dlmm: seq<Target>)

  const EMPTY := Fold([], [], [], None, [], [])

  predicate IsPumpBranch(i: Item) {
    IsPumpTrade(i.event) && (i.isEventCpi || !IsPumpFunTrade(i.event.name) || i.event.ixName != "")
  }

  function Append(f: Fold, i: Item): Fold {
    f.(out := f.out + [i.event], slots := f.slots + [|f.out|], creators := f.creators + [|f.slots|])
  }

  // Merges into output `s` if the events agree.
  function TryMerge(f: Fold, i: Item, s: nat): Option<Fold>
    requires s < |f.out|
  {
    match MergeEvent(f.out[s], i.event)
    case Some(e) => Some(f.(out := f.out[s := e], slots := f.slots + [s]))
    case None => None
  }

  // Frames point into the output.
  predicate TargetsFit(f: Fold) {
    && (f.outerTarget.Some? ==> f.outerTarget.value.1 < |f.out|)
    && (forall j :: 0 <= j < |f.pump| ==> f.pump[j].resultIdx < |f.out|)
    && (forall j :: 0 <= j < |f.dlmm| ==> f.dlmm[j].resultIdx < |f.out|)
  }

  function StepOuter(f: Fold, i: Item): (r: Fold)
    ensures TargetsFit(r) && |r.slots| == |f.slots| + 1 && f.slots <= r.slots
  {
    var s := |f.out|;
    Append(f, i).(
    outerTarget := Some((i.outerIdx, s)),
    pump := if IsPumpTrade(i.event) then [FrameOf(i, s)] else [],
    dlmm := if IsDlmm(i.event) then [FrameOf(i, s)] else [])
  }

  function StepPumpCpi(f: Fold, i: Item): (r: Fold)
    requires TargetsFit(f)
    ensures TargetsFit(r) && |r.slots| == |f.slots| + 1 && f.slots <= r.slots
  {
    var found := Select(f.pump, i);
    if found.Some? && !f.pump[found.value].consumed then
      var g := f.(pump := f.pump[found.value := f.pump[found.value].(consumed := true)]);
      var merged := TryMerge(g, i, f.pump[found.value].resultIdx);
      if merged.Some? then merged.value else Append(g, i)
    else Append(f, i)
  }

  function StepPumpFrame(f: Fold, i: Item): (r: Fold)
    requires TargetsFit(f)
    ensures TargetsFit(r) && |r.slots| == |f.slots| + 1 && f.slots <= r.slots
  {
    Append(f, i).(pump := Open(f.pump, i) + [FrameOf(i, |f.out|)])
  }

  function StepDlmmCpi(f: Fold, i: Item): (r: Fold)
    requires TargetsFit(f)
    ensures TargetsFit(r) && |r.slots| == |f.slots| + 1 && f.slots <= r.slots
  {
    match Select(f.dlmm, i)
    case None => Append(f, i)
    case Some(j) =>
      var g := f.(dlmm := f.dlmm[..j + 1]);
      var merged := TryMerge(g, i, f.dlmm[j].resultIdx);
      if merged.Some? then merged.value else Append(g, i)
  }

  function StepOther(f: Fold, i: Item): (r: Fold)
    requires TargetsFit(f)
    ensures TargetsFit(r) && |r.slots| == |f.slots| + 1 && f.slots <= r.slots
  {
    var merged := if f.outerTarget.Some? && f.outerTarget.value.0 == i.outerIdx then TryMerge(f, i, f.outerTarget.value.1)
                  else None;
    var g := if merged.Some? then merged.value else Append(f, i);
    if IsDlmm(i.event) then g.(dlmm := Open(f.dlmm, i) + [FrameOf(i, g.slots[|f.slots|])]) else g
  }

  function Step(f: Fold, i: Item): (r: Fold)
    requires TargetsFit(f)
    ensures TargetsFit(r) && |r.slots| == |f.slots| + 1 && f.slots <= r.slots
  {
    if i.innerIdx == None then StepOuter(f, i)
    else if IsPumpBranch(i) then if i.isEventCpi then StepPumpCpi(f, i) else StepPumpFrame(f, i)
    else if i.isEventCpi && IsDlmm(i.event) then StepDlmmCpi(f, i)
    else StepOther(f, i)
  }

  function Run(items: seq<Item>): (f: Fold)
    ensures TargetsFit(f) && |f.slots| == |items|
  {
    if items == [] then EMPTY else Step(Run(items[..|items| - 1]), items[|items| - 1])
  }

  /** What the parser returns for the collected events. */
  function Merged(collected: seq<Item>): seq<Event> {
    Run(Sort(collected)).out
  }
}
