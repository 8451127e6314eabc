/** What an enriched event says, field by field, and which of the transaction's events each field comes from. */
module EnrichFields {
  import opened Prelude
  import opened EnrichSpec
  import opened EnrichProofs

  // ----- Which event is asked -----

  // The earliest event that can tell.
  ghost predicate Earliest(es: seq<Event>, tells: Event -> bool, j: nat) {
    j < |es| && tells(es[j]) && forall i :: 0 <= i < j ==> !tells(es[i])
  }

  predicate IsKnown(t: Text) {
    t != EMPTY && t != DEFAULT_ADDRESS
  }

  // A create of the first kind.
  function Creates(mint: Text): Event -> bool {
    (e: Event) => e.Create? && e.info.mint == mint && IsKnown(mint)
  }

  // A create of either kind.
  function Launches(mint: Text): Event -> bool {
    (e: Event) => (e.Create? || e.CreateV2?) && e.info.mint == mint && IsKnown(mint)
  }

  // A purchase that names who received the fee.
  function PaysFee(mint: Text): Event -> bool {
    (e: Event) =>
      && e.Trade? && e.mint == mint && IsKnown(mint) && IsKnown(e.feeRecipient)
      && (e.kind.Buy? || e.kind.BuyExactSolIn? || (e.kind.Any? && e.isBuy))
  }

  // A trade that names what it was quoted in, other than SOL.
  function NamesQuote(mint: Text): Event -> bool {
    (e: Event) => e.Trade? && e.mint == mint && IsKnown(mint) && IsKnown(e.quoteMint) && e.quoteMint != SOL_QUOTE
  }

  lemma SourceExactly<V>(es: seq<Event>, offer: Event -> Option<Offer<V>>, mint: Text, tells: Event -> bool)
    requires forall e :: tells(e) <==> offer(e).Some? && offer(e).value.mint == mint
    ensures First(es, offer, mint).Some? <==> exists j: nat :: Earliest(es, tells, j)
    ensures forall j: nat :: Earliest(es, tells, j) ==>
              tells(es[j]) && First(es, offer, mint) == Some(offer(es[j]).value.value)
  {
    FirstIsFirst(es, offer, mint);
    if First(es, offer, mint).Some? {
      var k :| 0 <= k < |es| && offer(es[k]) == Some(Offer(mint, First(es, offer, mint).value))
               && forall j :: 0 <= j < k ==> offer(es[j]).None? || offer(es[j]).value.mint != mint;
      assert Earliest(es, tells, k);
      forall j: nat | Earliest(es, tells, j)
        ensures j == k
      {
        assert j < k || j == k || j > k;
      }
    }
  }

  // ----- Creates of the second kind -----

  const TEXTS: seq<Info -> Text> := [
    (i: Info) => i.name, (i: Info) => i.symbol, (i: Info) => i.uri, (i: Info) => i.bondingCurve, (i: Info) => i.user,
    (i: Info) => i.creator, (i: Info) => i.tokenProgram, (i: Info) => i.quoteVault, (i: Info) => i.quoteTokenProgram]

  const AMOUNTS: seq<Info -> int> := [
    (i: Info) => i.timestamp, (i: Info) => i.virtualTokenReserves, (i: Info) => i.virtualSolReserves,
    (i: Info) => i.realTokenReserves, (i: Info) => i.tokenTotalSupply, (i: Info) => i.virtualQuoteReserves]

  // Text `x` of `now` is that of `was` if known, else that of `from` if known there.
  ghost predicate TextFrom(was: Info, from: Info, now: Info, x: nat)
    requires x < |TEXTS|
  {
    TEXTS[x](now) == if IsKnown(TEXTS[x](was)) || !IsKnown(TEXTS[x](from)) then TEXTS[x](was) else TEXTS[x](from)
  }

  ghost predicate AmountFrom(was: Info, from: Info, now: Info, x: nat)
    requires x < |AMOUNTS|
  {
    AMOUNTS[x](now) == if AMOUNTS[x](was) != 0 then AMOUNTS[x](was) else AMOUNTS[x](from)
  }

  // Every field of `now` that `was` did not know is that field of `from`, if it is known there; nothing else changed.
  ghost predicate CompletedFrom(was: Info, from: Info, now: Info) {
    && now.mint == was.mint
    && (forall x: nat :: x < |TEXTS| ==> TextFrom(was, from, now, x))
    && (forall x: nat :: x < |AMOUNTS| ==> AmountFrom(was, from, now, x))
    && now.mayhem == (was.mayhem || from.mayhem) && now.cashback == (was.cashback || from.cashback)
  }

  lemma TextsFilled(was: Info, from: Info, quote: Text, x: nat)
    requires x < |TEXTS|
    ensures TextFrom(was, from, FillInfo(was, from).(quoteMint := quote), x)
  {
    match x
    case 0 => case 1 => case 2 => case 3 => case 4 =>
    case _ =>
  }

  lemma AmountsFilled(was: Info, from: Info, quote: Text, x: nat)
    requires x < |AMOUNTS|
    ensures AmountFrom(was, from, FillInfo(was, from).(quoteMint := quote), x)
  {
  }

  lemma FilledIsCompleted(was: Info, from: Info, quote: Text)
    ensures CompletedFrom(was, from, FillInfo(was, from).(quoteMint := quote))
  {
    forall x: nat | x < |TEXTS| {
      TextsFilled(was, from, quote, x);
    }
    forall x: nat | x < |AMOUNTS| {
      AmountsFilled(was, from, quote, x);
    }
  }

  lemma NoneTells(es: seq<Event>, tells: Event -> bool, j: nat)
    requires !(exists i: nat :: Earliest(es, tells, i)) && j < |es|
    ensures !tells(es[j])
    decreases j
  {
    forall i | 0 <= i < j
      ensures !tells(es[i])
    {
      NoneTells(es, tells, i);
    }
    assert tells(es[j]) ==> Earliest(es, tells, j);
  }

  /**
   For every list of events, and every create of the second kind in it: each of its fields that was not known
   is the same field of the earliest create of the first kind with its mint; without such a create, only its
   quote mint and observed fee recipient can change.
   */
  lemma CreatesAreCompleted(es: seq<Event>, k: nat, j: nat)
    requires k < |es| && es[k].CreateV2?
    ensures |Enrich(es)| == |es| && Enrich(es)[k].CreateV2?
    ensures Earliest(es, Creates(es[k].info.mint), j) ==> CompletedFrom(es[k].info, es[j].info, Enrich(es)[k].info)
    ensures (forall i: nat :: !Earliest(es, Creates(es[k].info.mint), i)) ==>
              Enrich(es)[k].info == es[k].info.(quoteMint := Enrich(es)[k].info.quoteMint)
  {
    var mint := es[k].info.mint;
    FirstSourcesWin(es, k);
    SourceExactly(es, CreateOffer, mint, Creates(mint));
    if Earliest(es, Creates(mint), j) {
      FilledIsCompleted(es[k].info, es[j].info, Enrich(es)[k].info.quoteMint);
    }
  }

  /** Its fee recipient, if not known, is the one that the earliest purchase of its mint names. */
  lemma FeesAreObserved(es: seq<Event>, k: nat, j: nat)
    requires k < |es| && es[k].CreateV2?
    ensures |Enrich(es)| == |es| && Enrich(es)[k].CreateV2?
    ensures IsKnown(es[k].observedFee) ==> Enrich(es)[k].observedFee == es[k].observedFee
    ensures !IsKnown(es[k].observedFee) && Earliest(es, PaysFee(es[k].info.mint), j) ==>
              Enrich(es)[k].observedFee == es[j].feeRecipient
    ensures (forall i: nat :: !Earliest(es, PaysFee(es[k].info.mint), i)) ==> Enrich(es)[k].observedFee == es[k].observedFee
  {
    FirstSourcesWin(es, k);
    SourceExactly(es, FeeOffer, es[k].info.mint, PaysFee(es[k].info.mint));
  }

  // ----- Quote mints -----

  // The create `i` fills in the quote mint of `k`.
  ghost predicate CompletesQuote(es: seq<Event>, k: nat, i: nat)
    requires k < |es| && (es[k].Create? || es[k].CreateV2?)
  {
    && es[k].CreateV2? && !IsKnown(es[k].info.quoteMint)
    && Earliest(es, Creates(es[k].info.mint), i) && IsKnown(es[i].info.quoteMint)
  }

  // What the creates leave of a quote mint.
  ghost predicate QuoteAfterCreates(es: seq<Event>, k: nat, quote: Text)
    requires k < |es| && (es[k].Create? || es[k].CreateV2?)
  {
    || (exists i: nat :: CompletesQuote(es, k, i) && quote == es[i].info.quoteMint)
    || ((forall i: nat :: !CompletesQuote(es, k, i)) && quote == es[k].info.quoteMint)
  }

  lemma QuoteAfterIs(es: seq<Event>, k: nat, quote: Text)
    requires k < |es| && (es[k].Create? || es[k].CreateV2?) && QuoteAfterCreates(es, k, quote)
    ensures WithCreate(es[k], First(es, CreateOffer, es[k].info.mint)).info.quoteMint == quote
  {
    SourceExactly(es, CreateOffer, es[k].info.mint, Creates(es[k].info.mint));
    if i: nat :| CompletesQuote(es, k, i) {
      assert First(es, CreateOffer, es[k].info.mint) == Some(es[i].info);
    } else if i: nat :| Earliest(es, Creates(es[k].info.mint), i) {
      assert !CompletesQuote(es, k, i);
    }
  }

  /** A quote mint other than SOL stays; else the earliest trade that names another one decides. */
  lemma QuotesAreNamed(es: seq<Event>, k: nat, j: nat, quote: Text)
    requires k < |es| && (es[k].Create? || es[k].CreateV2?) && QuoteAfterCreates(es, k, quote)
    ensures |Enrich(es)| == |es| && (Enrich(es)[k].Create? || Enrich(es)[k].CreateV2?)
    ensures IsKnown(quote) && quote != SOL_QUOTE ==> Enrich(es)[k].info.quoteMint == quote
    ensures !(IsKnown(quote) && quote != SOL_QUOTE) && Earliest(es, NamesQuote(es[k].info.mint), j) ==>
              Enrich(es)[k].info.quoteMint == es[j].quoteMint
    ensures (forall i: nat :: !Earliest(es, NamesQuote(es[k].info.mint), i)) ==> Enrich(es)[k].info.quoteMint == quote
  {
    FirstSourcesWin(es, k);
    QuoteAfterIs(es, k, quote);
    SourceExactly(es, QuoteOffer, es[k].info.mint, NamesQuote(es[k].info.mint));
  }

  /** Of a create of the first kind nothing else changes; and events of other kinds stay as they are. */
  lemma OthersStay(es: seq<Event>, k: nat)
    requires k < |es|
    ensures |Enrich(es)| == |es|
    ensures es[k].Create? ==> Enrich(es)[k].Create? && Enrich(es)[k].info == es[k].info.(quoteMint := Enrich(es)[k].info.quoteMint)
    ensures es[k].Other? ==> Enrich(es)[k] == es[k]
  {
    FirstSourcesWin(es, k);
  }

  // ----- Trades -----

  // The flags of the earliest create, as completed.
  lemma FlagsAreOfLaunch(es: seq<Event>, mint: Text, j: nat)
    requires Earliest(es, Launches(mint), j)
    ensures |Enrich(es)| == |es| && (Enrich(es)[j].Create? || Enrich(es)[j].CreateV2?)
    ensures First(FromCreates(es), FlagsOffer, mint) == Some(Flags(Enrich(es)[j].info.cashback, Enrich(es)[j].info.mayhem))
  {
    var after := FromCreates(es);
    forall i | 0 <= i < |es|
      ensures Launches(mint)(after[i]) == Launches(mint)(es[i])
    {
    }
    SourceExactly(after, FlagsOffer, mint, Launches(mint));
    assert Earliest(after, Launches(mint), j);
    FirstSourcesWin(es, j);
  }

  lemma NoLaunchNoFlags(es: seq<Event>, mint: Text)
    requires forall i: nat :: !Earliest(es, Launches(mint), i)
    ensures First(FromCreates(es), FlagsOffer, mint) == None
  {
    var after := FromCreates(es);
    SourceExactly(after, FlagsOffer, mint, Launches(mint));
    if j: nat :| Earliest(after, Launches(mint), j) {
      NoneTells(es, Launches(mint), j);
    }
  }

  /**
   For every list of events, and every trade in it: cashback and mayhem are true if they were or are for the
   earliest create of its mint, as completed; volume is tracked if it was or that create has cashback; the rest stays.
   */
  lemma TradesAreFlagged(es: seq<Event>, k: nat, j: nat)
    requires k < |es| && es[k].Trade?
    ensures |Enrich(es)| == |es| && Enrich(es)[k].Trade?
    ensures Earliest(es, Launches(es[k].mint), j) ==>
              && (Enrich(es)[j].Create? || Enrich(es)[j].CreateV2?)
              && var c := Enrich(es)[j].info;
                 Enrich(es)[k] == es[k].(cashback := es[k].cashback || c.cashback, mayhem := es[k].mayhem || c.mayhem,
                 trackVolume := es[k].trackVolume || c.cashback)
    ensures (forall i: nat :: !Earliest(es, Launches(es[k].mint), i)) ==> Enrich(es)[k] == es[k]
  {
    FirstSourcesWin(es, k);
    if Earliest(es, Launches(es[k].mint), j) {
      FlagsAreOfLaunch(es, es[k].mint, j);
    }
    if forall i: nat :: !Earliest(es, Launches(es[k].mint), i) {
      NoLaunchNoFlags(es, es[k].mint);
    }
  }
}
