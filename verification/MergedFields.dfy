/** What a merged event says, field by field: which of the events sent to an output each field is taken from. */
module MergedFields {
  import opened Prelude
  import opened InstructionMerge
  import opened InstructionMergeProofs
  import CallTree

  // The events sent to output `s`, in order.
  function Sent(items: seq<Item>, slots: seq<nat>, s: nat): seq<Event>
    requires |items| == |slots|
  {
    if items == [] then []
    else
      Sent(items[..|items| - 1], slots[..|items| - 1], s)
      + if slots[|items| - 1] == s then [items[|items| - 1].event] else []
  }

  // Merged one after the other; None if there are none, or two disagree.
  function MergeAll(es: seq<Event>): Option<Event> {
    if es == [] then None
    else if |es| == 1 then Some(es[0])
    else
      match MergeAll(es[..|es| - 1])
      case None => None
      case Some(base) => MergeEvent(base, es[|es| - 1])
  }

  // ----- Which event a field is taken from -----

  // The last known value; 0 if none is.
  function LastKnown(es: seq<Event>, key: Event -> Key): Key {
    if es == [] then 0 else if key(es[|es| - 1]) != 0 then key(es[|es| - 1]) else LastKnown(es[..|es| - 1], key)
  }

  predicate HasAmounts(e: Event) {
    e.solAmount != 0 || e.tokenAmount != 0
  }

  /** The last event after the first that has amounts, else the first. */
  function Reporter(es: seq<Event>): (r: Event)
    requires es != []
  {
    if |es| == 1 || HasAmounts(es[|es| - 1]) then es[|es| - 1] else Reporter(es[..|es| - 1])
  }

  function LastNamed(es: seq<Event>): string {
    if es == [] then "" else if es[|es| - 1].ixName != "" then es[|es| - 1].ixName else LastNamed(es[..|es| - 1])
  }

  function LastVersioned(es: seq<Event>): string {
    if es == [] then "" else if IsVersioned(es[|es| - 1].ixName) then es[|es| - 1].ixName else LastVersioned(es[..|es| - 1])
  }

  /** A name of a later version stands against all that are none; otherwise the last name counts. */
  function Named(es: seq<Event>): string {
    if LastVersioned(es) != "" then LastVersioned(es) else LastNamed(es)
  }

  function MintOf(): Event -> Key {
    (e: Event) => e.mint
  }

  function UserOf(): Event -> Key {
    (e: Event) => e.user
  }

  predicate AnyCreated(es: seq<Event>) {
    exists i :: 0 <= i < |es| && es[i].createdBuy
  }

  // ----- Trades of Pump.fun -----

  /** `r` reports the trades `es`. */
  ghost predicate ReportsTrades(r: Event, es: seq<Event>)
    requires es != []
  {
    && r.solAmount == Reporter(es).solAmount && r.tokenAmount == Reporter(es).tokenAmount && r.isBuy == Reporter(es).isBuy
    && r.mint == LastKnown(es, MintOf()) && r.user == LastKnown(es, UserOf())
    && r.ixName == Named(es) && r.createdBuy == AnyCreated(es)
    && r.name == es[0].name && r.pool == es[0].pool && r.context == es[0].context
    && forall i :: 0 <= i < |es| ==> IsPumpFunTrade(es[i].name) && es[i].isBuy == r.isBuy
  }

  lemma OneLastKnown(es: seq<Event>, key: Event -> Key)
    requires |es| == 1
    ensures LastKnown(es, key) == key(es[0])
  {
    assert LastKnown(es[..0], key) == 0;
  }

  lemma OneNamed(es: seq<Event>)
    requires |es| == 1
    ensures Named(es) == es[0].ixName
  {
    assert LastNamed(es[..0]) == "" && LastVersioned(es[..0]) == "";
  }

  lemma OneCreated(es: seq<Event>)
    requires |es| == 1
    ensures AnyCreated(es) == es[0].createdBuy
  {
  }

  lemma OneTrade(es: seq<Event>)
    requires |es| == 1 && IsPumpFunTrade(es[0].name)
    ensures ReportsTrades(es[0], es)
  {
    OneCreated(es);
    OneLastKnown(es, MintOf());
    OneLastKnown(es, UserOf());
    OneNamed(es);
  }

  lemma AnyCreatedNext(es: seq<Event>, e: Event)
    ensures AnyCreated(es + [e]) == (AnyCreated(es) || e.createdBuy)
  {
    assert (es + [e])[|es|] == e;
    if AnyCreated(es) {
      var i :| 0 <= i < |es| && es[i].createdBuy;
      assert (es + [e])[i] == es[i];
    }
  }

  lemma LastKnownNext(es: seq<Event>, e: Event, key: Event -> Key)
    ensures LastKnown(es + [e], key) == Put(LastKnown(es, key), key(e))
  {
    assert (es + [e])[..|es|] == es;
  }

  lemma NamedNext(es: seq<Event>, e: Event)
    ensures Named(es + [e]) ==
            if e.ixName != "" && (!IsVersioned(Named(es)) || IsVersioned(e.ixName)) then e.ixName else Named(es)
  {
    assert (es + [e])[..|es|] == es;
    LastVersionedIsVersioned(es);
    NoneVersioned(es);
  }

  lemma {:induction false} LastVersionedIsVersioned(es: seq<Event>)
    ensures LastVersioned(es) != "" ==> IsVersioned(LastVersioned(es))
  {
    if es != [] {
      LastVersionedIsVersioned(es[..|es| - 1]);
    }
  }

  lemma {:induction false} NoneVersioned(es: seq<Event>)
    ensures LastVersioned(es) == "" ==> !IsVersioned(LastNamed(es))
  {
    if es != [] {
      NoneVersioned(es[..|es| - 1]);
    }
  }

  lemma ReporterNext(es: seq<Event>, e: Event)
    requires es != []
    ensures Reporter(es + [e]) == if HasAmounts(e) then e else Reporter(es)
  {
    assert (es + [e])[..|es|] == es;
  }

  lemma TradeNext(r: Event, es: seq<Event>, e: Event)
    requires es != [] && ReportsTrades(r, es) && MergeEvent(r, e).Some?
    ensures ReportsTrades(MergeEvent(r, e).value, es + [e])
  {
    assert IsPumpFunTrade(es[0].name);
    AnyCreatedNext(es, e);
    LastKnownNext(es, e, MintOf());
    LastKnownNext(es, e, UserOf());
    NamedNext(es, e);
    ReporterNext(es, e);
    assert (es + [e])[0] == es[0];
  }

  /** However many trades are merged: the amounts are the last reported, mint, user and name the last known. */
  lemma {:induction false} TradesReport(es: seq<Event>)
    requires es != [] && IsPumpFunTrade(es[0].name) && MergeAll(es).Some?
    ensures ReportsTrades(MergeAll(es).value, es)
  {
    var n := |es| - 1;
    if n == 0 {
      OneTrade(es);
    } else {
      TradesReport(es[..n]);
      TradeNext(MergeAll(es[..n]).value, es[..n], es[n]);
      assert es == es[..n] + [es[n]];
    }
  }

  // ----- The other kinds -----

  predicate IsSwap(n: Name) {
    n.PumpSwapBuy? || n.PumpSwapSell?
  }

  /** Of swaps the last counts, with the last known mint. */
  lemma {:induction false} SwapsReport(es: seq<Event>)
    requires es != [] && IsSwap(es[0].name) && MergeAll(es).Some?
    ensures MergeAll(es).value == es[|es| - 1].(mint := LastKnown(es, MintOf())) && es[|es| - 1].name == es[0].name
  {
    var n := |es| - 1;
    assert es == es[..n] + [es[n]];
    LastKnownNext(es[..n], es[n], MintOf());
    if n > 0 {
      SwapsReport(es[..n]);
    }
  }

  /** Of creates the first counts, with the last known mint, user and name. */
  lemma {:induction false} CreatesReport(es: seq<Event>)
    requires es != [] && es[0].name.PumpFunCreateV2? && MergeAll(es).Some?
    ensures MergeAll(es).value ==
            es[0].(mint := LastKnown(es, MintOf()), user := LastKnown(es, UserOf()), ixName := LastNamed(es))
  {
    var n := |es| - 1;
    assert es == es[..n] + [es[n]];
    LastKnownNext(es[..n], es[n], MintOf());
    LastKnownNext(es[..n], es[n], UserOf());
    if n > 0 {
      CreatesReport(es[..n]);
    }
  }

  predicate KeepsContext(n: Name) {
    n.DlmmInitializePool? || n.DlmmCreatePosition?
  }

  predicate HasOwnRule(n: Name) {
    IsPumpFunTrade(n) || IsSwap(n) || n.PumpFunCreateV2?
  }

  /** Of all others the last counts, but for what only the first can know of a DLMM pool or position. */
  lemma {:induction false} OthersReport(es: seq<Event>)
    requires es != [] && !HasOwnRule(es[0].name) && MergeAll(es).Some?
    ensures var last := es[|es| - 1];
            && last.name == es[0].name
            && MergeAll(es).value ==
               if KeepsContext(last.name) then last.(context := es[0].context)
               else if last.name.DlmmClosePosition? then last.(pool := es[0].pool) else last
  {
    var n := |es| - 1;
    assert es == es[..n] + [es[n]];
    if n > 0 {
      OthersReport(es[..n]);
    }
  }

  // ----- When two events agree -----

  datatype Execution = Execution(isBuy: bool, mint: Key, user: Key, pool: Key)

  predicate Same(known: Key, truth: Key) {
    known == 0 || known == truth
  }

  // What the events say of an execution.
  predicate IsTradeIn(e: Event, x: Execution) {
    e.isBuy == x.isBuy && Same(e.mint, x.mint) && Same(e.user, x.user)
  }

  predicate IsSwapIn(e: Event, x: Execution) {
    Same(e.pool, x.pool) && Same(e.user, x.user)
  }

  function Either(a: Key, b: Key): Key {
    if a != 0 then a else b
  }

  /** Two trades are merged exactly if one execution can be what both speak of. */
  lemma TradesAgreeExactly(a: Event, b: Event)
    requires IsPumpFunTrade(a.name) && IsPumpFunTrade(b.name)
    ensures MergeEvent(a, b).Some? <==> exists x :: IsTradeIn(a, x) && IsTradeIn(b, x)
  {
    if MergeEvent(a, b).Some? {
      var x := Execution(a.isBuy, Either(a.mint, b.mint), Either(a.user, b.user), 0);
      assert IsTradeIn(a, x) && IsTradeIn(b, x);
    }
  }

  /** Two swaps in the same way; and events of different kinds never. */
  lemma SwapsAgreeExactly(a: Event, b: Event)
    requires IsSwap(a.name)
    ensures MergeEvent(a, b).Some? <==> a.name == b.name && exists x :: IsSwapIn(a, x) && IsSwapIn(b, x)
  {
    if MergeEvent(a, b).Some? {
      var x := Execution(false, 0, Either(a.user, b.user), Either(a.pool, b.pool));
      assert IsSwapIn(a, x) && IsSwapIn(b, x);
    }
  }

  lemma OthersAgreeExactly(a: Event, b: Event)
    requires !IsPumpFunTrade(a.name) && !IsSwap(a.name)
    ensures MergeEvent(a, b).Some? <==> a.name == b.name
  {
  }

  // ----- The outputs of a run -----

  lemma MergeAllNext(es: seq<Event>, e: Event)
    ensures MergeAll(es + [e]) ==
            if es == [] then Some(e) else match MergeAll(es) case None => None case Some(base) => MergeEvent(base, e)
  {
    assert (es + [e])[..|es|] == es;
  }

  // An event that agrees with nothing before would start afresh; so long as all agree the two are the same.
  ghost predicate AllAgree(items: seq<Item>, slots: seq<nat>, s: nat)
    requires |items| == |slots|
  {
    forall n :: 0 <= n <= |items| && Sent(items[..n], slots[..n], s) != [] ==> MergeOf(items[..n], slots[..n], s).Some?
  }

  lemma {:induction false} MergeOfIsMergeAll(items: seq<Item>, slots: seq<nat>, s: nat)
    requires |items| == |slots| && AllAgree(items, slots, s)
    ensures MergeOf(items, slots, s) == MergeAll(Sent(items, slots, s))
  {
    if items != [] {
      var n := |items| - 1;
      AllAgreeBefore(items, slots, s);
      MergeOfIsMergeAll(items[..n], slots[..n], s);
      MergeAllNext(Sent(items[..n], slots[..n], s), items[n].event);
      assert items[..n + 1] == items && slots[..n + 1] == slots;
      assert Sent(items[..n], slots[..n], s) + [] == Sent(items[..n], slots[..n], s);
      assert Sent(items[..n], slots[..n], s) != [] ==> MergeOf(items[..n], slots[..n], s).Some?;
    }
  }

  lemma AllAgreeBefore(items: seq<Item>, slots: seq<nat>, s: nat)
    requires |items| == |slots| && items != [] && AllAgree(items, slots, s)
    ensures AllAgree(items[..|items| - 1], slots[..|items| - 1], s)
  {
    var n := |items| - 1;
    forall k | 0 <= k <= n && Sent(items[..n][..k], slots[..n][..k], s) != []
      ensures MergeOf(items[..n][..k], slots[..n][..k], s).Some?
    {
      assert items[..n][..k] == items[..k] && slots[..n][..k] == slots[..k];
    }
  }

  lemma {:induction false} SentSomething(items: seq<Item>, slots: seq<nat>, s: nat)
    requires |items| == |slots|
    ensures Sent(items, slots, s) != [] <==> exists k :: 0 <= k < |items| && slots[k] == s
  {
    if items != [] {
      var n := |items| - 1;
      SentSomething(items[..n], slots[..n], s);
      if k :| 0 <= k < n && slots[k] == s {
        assert slots[..n][k] == s;
      }
    }
  }

  lemma RunSlotsPrefix(items: seq<Item>, n: nat)
    requires n <= |items|
    ensures Run(items[..n]).slots == Run(items).slots[..n]
  {
    CallTree.RunSlots(items, n);
  }

  lemma RunAgrees(items: seq<Item>, s: nat)
    ensures AllAgree(items, Run(items).slots, s)
  {
    var slots := Run(items).slots;
    forall n | 0 <= n <= |items| && Sent(items[..n], slots[..n], s) != []
      ensures MergeOf(items[..n], slots[..n], s).Some?
    {
      var f := Run(items[..n]);
      RunSlotsPrefix(items, n);
      RunConserves(items[..n]);
      SlotsExist(items[..n], f);
      SentSomething(items[..n], slots[..n], s);
      var k :| 0 <= k < n && slots[..n][k] == s;
      assert f.slots[k] == s && s < |f.out|;
    }
  }

  /** Every output is the events sent to it, merged in order; and something was sent to each. */
  lemma OutputIsMerged(items: seq<Item>, s: nat)
    requires s < |Run(items).out|
    ensures Sent(items, Run(items).slots, s) != []
    ensures MergeAll(Sent(items, Run(items).slots, s)) == Some(Run(items).out[s])
  {
    RunAgrees(items, s);
    RunConserves(items);
    MergeOfIsMergeAll(items, Run(items).slots, s);
  }

  /** What an output reports of the events sent to it, whichever kind they are of. */
  ghost predicate Reports(r: Event, es: seq<Event>) {
    && es != [] && r.name == es[0].name
    && (IsPumpFunTrade(r.name) ==> ReportsTrades(r, es))
    && (IsSwap(r.name) ==> r == es[|es| - 1].(mint := LastKnown(es, MintOf())))
    && (r.name.PumpFunCreateV2? ==>
          r == es[0].(mint := LastKnown(es, MintOf()), user := LastKnown(es, UserOf()), ixName := LastNamed(es)))
    && (KeepsContext(r.name) ==> r == es[|es| - 1].(context := es[0].context))
    && (r.name.DlmmClosePosition? ==> r == es[|es| - 1].(pool := es[0].pool))
    && (HasOwnRule(r.name) || KeepsContext(r.name) || r.name.DlmmClosePosition? || r == es[|es| - 1])
  }

  lemma MergedReports(es: seq<Event>)
    requires es != [] && MergeAll(es).Some?
    ensures Reports(MergeAll(es).value, es)
  {
    KindStays(es);
    if IsPumpFunTrade(es[0].name) {
      TradesReport(es);
    } else if IsSwap(es[0].name) {
      SwapsReport(es);
    } else if es[0].name.PumpFunCreateV2? {
      CreatesReport(es);
    } else {
      OthersReport(es);
    }
  }

  /** For every output of a run: what it reports. */
  lemma OutputReports(items: seq<Item>, s: nat)
    requires s < |Run(items).out|
    ensures |items| == |Run(items).slots| && Reports(Run(items).out[s], Sent(items, Run(items).slots, s))
  {
    OutputIsMerged(items, s);
    MergedReports(Sent(items, Run(items).slots, s));
  }

  // Events of different kinds are never merged.
  lemma {:induction false} KindStays(es: seq<Event>)
    requires es != [] && MergeAll(es).Some?
    ensures IsPumpFunTrade(MergeAll(es).value.name) <==> IsPumpFunTrade(es[0].name)
    ensures !IsPumpFunTrade(es[0].name) ==> MergeAll(es).value.name == es[0].name
  {
    if |es| > 1 {
      KindStays(es[..|es| - 1]);
    }
  }
}
