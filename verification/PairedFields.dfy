/** What a paired event says, field by field: which of the events that met at a place each field is taken from. */
module PairedFields {
  import opened Prelude
  import opened EventPairing

  // The events at place `s`: what stood there first, and the instructions sent there, in order.
  function Met(logs: seq<Event>, ixs: seq<Event>, slots: seq<nat>, s: nat): seq<Event>
    requires |slots| <= |ixs|
  {
    if slots == [] then if s < |logs| then [logs[s]] else []
    else
      Met(logs, ixs, slots[..|slots| - 1], s) + if slots[|slots| - 1] == s then [ixs[|slots| - 1]] else []
  }

  predicate IsCreate(e: Event) {
    e.kind.PumpCreate? || e.kind.PumpCreateV2?
  }

  // ----- Which events meet -----

  // What an event is known by, if it must name it and does.
  predicate IsIdentified(e: Event, checked: bool) {
    checked ==> e.identity != [] && e.identity[0] != DEFAULT_KEY && e.identity[0] != EMPTY_KEY
  }

  /** The `m`-th and the `n`-th of their executions: of one trade or swap, of one mint's creation, or known by the same. */
  predicate AreOne(a: Event, m: nat, b: Event, n: nat) {
    match (a.kind, b.kind)
    case (PumpTrade(_), PumpTrade(_)) =>
      a.mint == b.mint && a.user == b.user && a.isBuy == b.isBuy && Lane(a.ixName) == Lane(b.ixName) && m == n
    case (Counted(p, checked, _, _), Counted(q, checked', _, _)) =>
      p == q && a.identity == b.identity && m == n && IsIdentified(a, checked) && IsIdentified(b, checked')
    case (Plain(t, checked, _), Plain(u, checked', _)) =>
      t == u && a.identity == b.identity && IsIdentified(a, checked) && IsIdentified(b, checked')
    case _ => IsCreate(a) && IsCreate(b) && a.mint == b.mint
  }

  /** For all events, numbered within their bases: they have a key in common exactly if they are one execution. */
  lemma KeysExactly(a: Event, m: nat, b: Event, n: nat)
    ensures KeyOf(a, m).Some? && KeyOf(a, m) == KeyOf(b, n) <==> AreOne(a, m, b, n)
  {
  }

  // Events whose fields can complete each other.
  predicate Akin(a: Event, b: Event) {
    || (a.kind.PumpTrade? && b.kind.PumpTrade?)
    || (IsCreate(a) && IsCreate(b))
    || (a.kind == b.kind && (a.kind.Counted? || a.kind.Plain?))
  }

  // The first event, and those of the others that are akin to it.
  function Relevant(es: seq<Event>): seq<Event> {
    if |es| <= 1 then es
    else Relevant(es[..|es| - 1]) + if Akin(es[0], es[|es| - 1]) then [es[|es| - 1]] else []
  }

  // ----- Which event a field is taken from -----

  function FirstKnown(es: seq<Event>, field: Event -> nat): Option<nat> {
    if es == [] then None else if !IsDefault(field(es[0])) then Some(field(es[0])) else FirstKnown(es[1..], field)
  }

  function FirstNonZero(es: seq<Event>): nat {
    if es == [] then 0 else if es[0].limit != 0 then es[0].limit else FirstNonZero(es[1..])
  }

  function FirstName(es: seq<Event>): string {
    if es == [] then "" else if es[0].ixName != "" then es[0].ixName else FirstName(es[1..])
  }

  // The last name of a later version, of the instructions that joined.
  function LastVersioned(es: seq<Event>): string {
    if |es| <= 1 then ""
    else if IsVersioned(es[|es| - 1].ixName) then es[|es| - 1].ixName else LastVersioned(es[..|es| - 1])
  }

  predicate AnyCreated(es: seq<Event>) {
    exists i :: 0 <= i < |es| && es[i].createdBuy
  }

  function OrElse(known: Option<nat>, own: nat): nat {
    if known.Some? then known.value else own
  }

  function AccountOf(): Event -> nat {
    (e: Event) => e.account
  }

  function MintOf(): Event -> nat {
    (e: Event) => e.mint
  }

  function UserOf(): Event -> nat {
    (e: Event) => e.user
  }

  /** `r` is the first of `es`, with what it did not know itself from the first that does. */
  ghost predicate Reports(r: Event, es: seq<Event>)
    requires es != []
  {
    var account, limit, first := OrElse(FirstKnown(es, AccountOf()), es[0].account), FirstNonZero(es), es[0];
    match first.kind
    case PumpTrade(_) =>
      r == first.(account := account, limit := limit, createdBuy := AnyCreated(es),
      ixName := if LastVersioned(es) != "" then LastVersioned(es) else FirstName(es))
    case PumpCreate => ReportsCreate(r, es)
    case PumpCreateV2 => ReportsCreate(r, es)
    case Counted(_, _, fills, names) =>
      r == first.(account := if fills then account else first.account, ixName := if names then FirstName(es) else first.ixName)
    case Plain(_, _, fills) => r == first.(account := if fills then account else first.account)
    case DbcSwap(_) => r == first
    case Unkeyed(_) => r == first
  }

  ghost predicate ReportsCreate(r: Event, es: seq<Event>)
    requires es != []
  {
    r == es[0].(account := OrElse(FirstKnown(es, AccountOf()), es[0].account), limit := FirstNonZero(es), ixName := FirstName(es),
    mint := OrElse(FirstKnown(es, MintOf()), es[0].mint), user := OrElse(FirstKnown(es, UserOf()), es[0].user))
  }

  lemma {:induction false} FirstKnownNext(es: seq<Event>, e: Event, field: Event -> nat)
    ensures FirstKnown(es + [e], field) ==
            if FirstKnown(es, field).Some? then FirstKnown(es, field)
            else if !IsDefault(field(e)) then Some(field(e)) else None
  {
    if es != [] {
      FirstKnownNext(es[1..], e, field);
      assert (es + [e])[1..] == es[1..] + [e];
    } else {
      assert es + [e] == [e] && [e][1..] == [];
    }
  }

  lemma {:induction false} FirstKnownIsKnown(es: seq<Event>, field: Event -> nat)
    ensures FirstKnown(es, field).Some? ==> !IsDefault(FirstKnown(es, field).value)
    ensures FirstKnown(es, field).None? && es != [] ==> IsDefault(field(es[0]))
  {
    if es != [] {
      FirstKnownIsKnown(es[1..], field);
    }
  }

  // One more event fills a field that is not known yet.
  lemma FilledNext(es: seq<Event>, e: Event, field: Event -> nat)
    requires es != []
    ensures OrElse(FirstKnown(es + [e], field), field((es + [e])[0])) == Fill(OrElse(FirstKnown(es, field), field(es[0])), field(e))
  {
    FirstKnownNext(es, e, field);
    FirstKnownIsKnown(es, field);
    assert (es + [e])[0] == es[0];
  }

  lemma {:induction false} FirstNonZeroNext(es: seq<Event>, e: Event)
    ensures FirstNonZero(es + [e]) == FillNonZero(FirstNonZero(es), e.limit)
  {
    if es != [] {
      FirstNonZeroNext(es[1..], e);
      assert (es + [e])[1..] == es[1..] + [e];
    } else {
      assert es + [e] == [e] && [e][1..] == [];
    }
  }

  lemma {:induction false} FirstNameNext(es: seq<Event>, e: Event)
    ensures FirstName(es + [e]) == if FirstName(es) != "" then FirstName(es) else e.ixName
  {
    if es != [] {
      FirstNameNext(es[1..], e);
      assert (es + [e])[1..] == es[1..] + [e];
    } else {
      assert es + [e] == [e] && [e][1..] == [];
    }
  }

  lemma LastVersionedNext(es: seq<Event>, e: Event)
    requires es != []
    ensures LastVersioned(es + [e]) == if IsVersioned(e.ixName) then e.ixName else LastVersioned(es)
  {
    assert (es + [e])[..|es|] == es;
  }

  lemma AnyCreatedNext(es: seq<Event>, e: Event)
    ensures AnyCreated(es + [e]) == (AnyCreated(es) || e.createdBuy)
  {
    assert (es + [e])[|es|] == e;
    if AnyCreated(es) {
      var i :| 0 <= i < |es| && es[i].createdBuy;
      assert (es + [e])[i] == es[i];
    }
  }

  // ----- One place -----

  lemma OneKnown(es: seq<Event>, field: Event -> nat)
    requires |es| == 1
    ensures OrElse(FirstKnown(es, field), field(es[0])) == field(es[0])
  {
    assert FirstKnown(es[1..], field) == None;
  }

  lemma OneRest(es: seq<Event>)
    requires |es| == 1
    ensures FirstNonZero(es) == es[0].limit && FirstName(es) == es[0].ixName && LastVersioned(es) == ""
    ensures AnyCreated(es) == es[0].createdBuy
  {
    assert FirstNonZero(es[1..]) == 0 && FirstName(es[1..]) == "";
  }

  lemma One(es: seq<Event>)
    requires |es| == 1
    ensures Reports(es[0], es)
  {
    OneKnown(es, AccountOf());
    OneKnown(es, MintOf());
    OneKnown(es, UserOf());
    OneRest(es);
  }

  lemma TradeNext(r: Event, es: seq<Event>, e: Event)
    requires es != [] && es[0].kind.PumpTrade? && e.kind.PumpTrade? && Reports(r, es)
    ensures Reports(MergeInto(r, e), es + [e])
  {
    assert (es + [e])[0] == es[0];
    FilledNext(es, e, AccountOf());
    FirstNonZeroNext(es, e);
    FirstNameNext(es, e);
    LastVersionedNext(es, e);
    AnyCreatedNext(es, e);
  }

  lemma CreateNext(r: Event, es: seq<Event>, e: Event)
    requires es != [] && IsCreate(es[0]) && IsCreate(e) && ReportsCreate(r, es)
    ensures ReportsCreate(MergeInto(r, e), es + [e])
  {
    assert (es + [e])[0] == es[0];
    FilledNext(es, e, AccountOf());
    FilledNext(es, e, MintOf());
    FilledNext(es, e, UserOf());
    FirstNonZeroNext(es, e);
    FirstNameNext(es, e);
  }

  lemma OtherNext(r: Event, es: seq<Event>, e: Event)
    requires es != [] && es[0].kind == e.kind && (e.kind.Counted? || e.kind.Plain?) && Reports(r, es)
    ensures Reports(MergeInto(r, e), es + [e])
  {
    assert (es + [e])[0] == es[0];
    FilledNext(es, e, AccountOf());
    FirstNameNext(es, e);
  }

  lemma AkinNext(r: Event, es: seq<Event>, e: Event)
    requires es != [] && Akin(es[0], e) && Reports(r, es)
    ensures Reports(MergeInto(r, e), es + [e])
  {
    if es[0].kind.PumpTrade? {
      TradeNext(r, es, e);
    } else if IsCreate(es[0]) {
      CreateNext(r, es, e);
      assert (es + [e])[0] == es[0];
    } else {
      OtherNext(r, es, e);
    }
  }

  lemma StrangersLeave(r: Event, es: seq<Event>, e: Event)
    requires es != [] && !Akin(es[0], e) && Reports(r, es)
    ensures MergeInto(r, e) == r
  {
  }

  lemma {:induction false} RelevantStarts(es: seq<Event>)
    requires es != []
    ensures Relevant(es) != [] && Relevant(es)[0] == es[0]
  {
    if |es| > 1 {
      RelevantStarts(es[..|es| - 1]);
    }
  }

  lemma MetNext(r: Event, es: seq<Event>, e: Event)
    requires es != [] && Relevant(es) != [] && Reports(r, Relevant(es))
    ensures Relevant(es + [e]) != [] && Reports(MergeInto(r, e), Relevant(es + [e]))
  {
    assert (es + [e])[..|es|] == es && (es + [e])[0] == es[0];
    RelevantStarts(es);
    if Akin(es[0], e) {
      AkinNext(r, Relevant(es), e);
    } else {
      StrangersLeave(r, Relevant(es), e);
      assert Relevant(es) + [] == Relevant(es);
    }
  }

  // ----- All places -----

  lemma {:induction false} HoldsReports(logs: seq<Event>, ixs: seq<Event>, slots: seq<nat>, s: nat)
    requires |slots| <= |ixs|
    ensures Met(logs, ixs, slots, s) == [] <==> Holds(logs, ixs, slots, s).None?
    ensures var es := Met(logs, ixs, slots, s);
            es != [] ==> Relevant(es) != [] && Reports(Holds(logs, ixs, slots, s).value, Relevant(es))
  {
    if slots == [] {
      if s < |logs| {
        One([logs[s]]);
      }
    } else {
      var n := |slots| - 1;
      HoldsReports(logs, ixs, slots[..n], s);
      var es := Met(logs, ixs, slots[..n], s);
      if slots[n] != s {
        assert es + [] == es;
      } else if es == [] {
        One([ixs[n]]);
        assert es + [ixs[n]] == [ixs[n]];
      } else {
        MetNext(Holds(logs, ixs, slots[..n], s).value, es, ixs[n]);
      }
    }
  }

  /**
   For every list of log events and of instruction events, and every place of the output: the event there
   is the first that came to it, and takes from the instructions that met it only what it does not know.
   */
  lemma PlaceReports(logs: seq<Event>, ixs: seq<Event>, s: nat)
    requires s < |Paired(logs, ixs)|
    ensures var es := Met(logs, ixs, RunPass(logs, ixs, |ixs|).slots, s);
            Relevant(es) != [] && Reports(Paired(logs, ixs)[s], Relevant(es))
  {
    PassConserves(logs, ixs, |ixs|);
    HoldsReports(logs, ixs, RunPass(logs, ixs, |ixs|).slots, s);
  }
}
