/** Enrichment settles at once: it only adds, the first source wins, and once is enough. */
module EnrichProofs {
  import opened Prelude
  import opened EnrichSpec

  lemma {:induction false} SameOffersSameFirst<V>(es: seq<Event>, fs: seq<Event>, offer: Event -> Option<Offer<V>>, mint: Text)
    requires |es| == |fs| && forall k :: 0 <= k < |es| ==> offer(es[k]) == offer(fs[k])
    ensures First(es, offer, mint) == First(fs, offer, mint)
  {
    if es != [] {
      SameOffersSameFirst(es[..|es| - 1], fs[..|fs| - 1], offer, mint);
    }
  }

  /** What is first comes from an event, and no event before it offers anything for that mint. */
  lemma {:induction false} FirstIsFirst<V>(es: seq<Event>, offer: Event -> Option<Offer<V>>, mint: Text)
    ensures First(es, offer, mint).Some? <==> exists k :: 0 <= k < |es| && offer(es[k]).Some? && offer(es[k]).value.mint == mint
    ensures First(es, offer, mint).Some? ==>
              exists k :: 0 <= k < |es| && offer(es[k]) == Some(Offer(mint, First(es, offer, mint).value))
                          && forall j :: 0 <= j < k ==> offer(es[j]).None? || offer(es[j]).value.mint != mint
  {
    if es != [] {
      var n, before := |es| - 1, es[..|es| - 1];
      FirstIsFirst(before, offer, mint);
      if First(before, offer, mint).Some? {
        var k :| 0 <= k < n && offer(before[k]) == Some(Offer(mint, First(before, offer, mint).value))
                 && forall j :: 0 <= j < k ==> offer(before[j]).None? || offer(before[j]).value.mint != mint;
        assert offer(es[k]).Some?;
      } else {
        forall j | 0 <= j < n
          ensures offer(es[j]).None? || offer(es[j]).value.mint != mint
        {
          assert es[j] == before[j];
        }
        assert offer(es[n]).Some? && offer(es[n]).value.mint == mint ==> offer(es[n]) == Some(Offer(mint, First(es, offer, mint).value));
      }
    }
  }

  // The four sources of an event.
  function CreateFor(es: seq<Event>, e: Event): Option<Info> {
    First(es, CreateOffer, MintOf(e))
  }

  function FeeFor(es: seq<Event>, e: Event): Option<Text> {
    First(es, FeeOffer, MintOf(e))
  }

  function QuoteFor(es: seq<Event>, e: Event): Option<Text> {
    First(es, QuoteOffer, MintOf(e))
  }

  // Flags are taken once the creates have been completed.
  function FlagsFor(es: seq<Event>, e: Event): Option<Flags> {
    First(FromCreates(es), FlagsOffer, MintOf(e))
  }

  function Enriched(es: seq<Event>, e: Event): Event {
    WithFlags(WithQuote(WithFee(WithCreate(e, CreateFor(es, e)), FeeFor(es, e)), QuoteFor(es, e)), FlagsFor(es, e))
  }

  // No pass changes the mint of an event.
  lemma MintsStay(e: Event, c: Option<Info>, fee: Option<Text>, quote: Option<Text>)
    ensures MintOf(WithCreate(e, c)) == MintOf(e) && MintOf(WithFee(e, fee)) == MintOf(e) && MintOf(WithQuote(e, quote)) == MintOf(e)
  {
  }

  // The passes, one after the other, each with its own sources.
  lemma PassesAt(es: seq<Event>, k: nat)
    requires k < |es|
    ensures var a := FromCreates(es);
            var b := FromFees(a);
            var c := FromQuotes(b);
            var mint := MintOf(es[k]);
            && |Enrich(es)| == |es|
            && Enrich(es)[k] == WithFlags(WithQuote(WithFee(WithCreate(es[k], First(es, CreateOffer, mint)), First(a, FeeOffer, mint)),
                                                    First(b, QuoteOffer, mint)), First(c, FlagsOffer, mint))
  {
    var a := FromCreates(es);
    var b := FromFees(a);
    MintsStay(es[k], First(es, CreateOffer, MintOf(es[k])), None, None);
    MintsStay(a[k], None, First(a, FeeOffer, MintOf(a[k])), None);
    MintsStay(b[k], None, None, First(b, QuoteOffer, MintOf(b[k])));
  }

  // What one pass changes offers the later passes nothing new.
  lemma SourcesAreFirst(es: seq<Event>, mint: Text)
    ensures First(FromCreates(es), FeeOffer, mint) == First(es, FeeOffer, mint)
    ensures First(FromFees(FromCreates(es)), QuoteOffer, mint) == First(es, QuoteOffer, mint)
    ensures First(FromQuotes(FromFees(FromCreates(es))), FlagsOffer, mint) == First(FromCreates(es), FlagsOffer, mint)
  {
    var a := FromCreates(es);
    SameOffersSameFirst(a, es, FeeOffer, mint);
    SameOffersSameFirst(FromFees(a), es, QuoteOffer, mint);
    SameOffersSameFirst(FromQuotes(FromFees(a)), a, FlagsOffer, mint);
  }

  /**
   Every event is completed from the first source of its mint among the events as they came, no
   matter which pass changed what before; only the flags are those of the completed creates.
   */
  lemma FirstSourcesWin(es: seq<Event>, k: nat)
    requires k < |es|
    ensures |Enrich(es)| == |es| && Enrich(es)[k] == Enriched(es, es[k])
  {
    PassesAt(es, k);
    SourcesAreFirst(es, MintOf(es[k]));
  }

  // ----- Monotone -----

  predicate TextGrows(a: Text, b: Text) {
    b == a || (Unknown(a) && !Unknown(b))
  }

  // A quote mint moves from unknown to the SOL placeholder to a real one.
  predicate QuoteGrows(a: Text, b: Text) {
    b == a || (Unknown(a) && !Unknown(b)) || (a == SOL_QUOTE && !UnknownOrSol(b))
  }

  predicate AmountGrows(a: int, b: int) {
    b == a || a == 0
  }

  predicate InfoGrows(a: Info, b: Info) {
    && a.mint == b.mint && TextGrows(a.name, b.name) && TextGrows(a.symbol, b.symbol) && TextGrows(a.uri, b.uri)
    && TextGrows(a.bondingCurve, b.bondingCurve) && TextGrows(a.user, b.user) && TextGrows(a.creator, b.creator)
    && TextGrows(a.tokenProgram, b.tokenProgram) && TextGrows(a.quoteVault, b.quoteVault)
    && TextGrows(a.quoteTokenProgram, b.quoteTokenProgram) && QuoteGrows(a.quoteMint, b.quoteMint)
    && AmountGrows(a.timestamp, b.timestamp) && AmountGrows(a.virtualTokenReserves, b.virtualTokenReserves)
    && AmountGrows(a.virtualSolReserves, b.virtualSolReserves) && AmountGrows(a.realTokenReserves, b.realTokenReserves)
    && AmountGrows(a.tokenTotalSupply, b.tokenTotalSupply) && AmountGrows(a.virtualQuoteReserves, b.virtualQuoteReserves)
    && (a.mayhem ==> b.mayhem) && (a.cashback ==> b.cashback)
  }

  predicate Grows(a: Event, b: Event) {
    match a
    case Create(info) => b.Create? && b.info == info.(quoteMint := b.info.quoteMint) && QuoteGrows(info.quoteMint, b.info.quoteMint)
    case CreateV2(info, fee) => b.CreateV2? && InfoGrows(info, b.info) && TextGrows(fee, b.observedFee)
    case Trade(_, _, _, _, _, cashback, mayhem, track) =>
      && b.Trade? && b == a.(cashback := b.cashback, mayhem := b.mayhem, trackVolume := b.trackVolume)
      && (cashback ==> b.cashback) && (mayhem ==> b.mayhem) && (track ==> b.trackVolume)
    case Other => b == a
  }

  lemma OffersAreKnown(es: seq<Event>, mint: Text)
    ensures First(es, FeeOffer, mint).Some? ==> !Unknown(First(es, FeeOffer, mint).value)
    ensures First(es, QuoteOffer, mint).Some? ==> !UnknownOrSol(First(es, QuoteOffer, mint).value)
  {
    FirstIsFirst(es, FeeOffer, mint);
    FirstIsFirst(es, QuoteOffer, mint);
  }

  /** Texts and amounts only leave their default, quote mints only become better known, flags only become true. */
  lemma EnrichOnlyAdds(es: seq<Event>, k: nat)
    requires k < |es|
    ensures |Enrich(es)| == |es| && Grows(es[k], Enrich(es)[k])
  {
    FirstSourcesWin(es, k);
    OffersAreKnown(es, MintOf(es[k]));
  }

  // ----- Once is enough -----

  // A create as the quote pass leaves it.
  function Quoted(c: Option<Info>, quote: Option<Text>): Option<Info> {
    if c.Some? && UnknownOrSol(c.value.quoteMint) && quote.Some? then Some(c.value.(quoteMint := quote.value)) else c
  }

  lemma {:induction false} FirstCreateQuoted(es: seq<Event>, fs: seq<Event>, mint: Text, quote: Option<Text>)
    requires |es| == |fs|
    requires forall k :: 0 <= k < |es| && CreateOffer(es[k]).Some? && CreateOffer(es[k]).value.mint == mint ==>
               fs[k] == WithQuote(es[k], quote)
    requires forall k :: 0 <= k < |es| && (CreateOffer(es[k]).None? || CreateOffer(es[k]).value.mint != mint) ==>
               CreateOffer(fs[k]).None? || CreateOffer(fs[k]).value.mint != mint
    ensures First(fs, CreateOffer, mint) == Quoted(First(es, CreateOffer, mint), quote)
  {
    if es != [] {
      FirstCreateQuoted(es[..|es| - 1], fs[..|fs| - 1], mint, quote);
    }
  }

  lemma EnrichedKeeps(es: seq<Event>, e: Event)
    ensures var f := Enriched(es, e);
            && MintOf(f) == MintOf(e) && FeeOffer(f) == FeeOffer(e) && QuoteOffer(f) == QuoteOffer(e)
            && FlagsOffer(f) == FlagsOffer(WithCreate(e, CreateFor(es, e)))
            && (e.Create? ==> f == WithQuote(e, QuoteFor(es, e))) && (f.Create? <==> e.Create?)
  {
  }

  // The sources of a mint after enrichment.
  lemma SourcesAfter(es: seq<Event>, mint: Text)
    ensures var fs := Enrich(es);
            && First(fs, FeeOffer, mint) == First(es, FeeOffer, mint)
            && First(fs, QuoteOffer, mint) == First(es, QuoteOffer, mint)
            && First(fs, FlagsOffer, mint) == First(FromCreates(es), FlagsOffer, mint)
            && First(fs, CreateOffer, mint) == Quoted(First(es, CreateOffer, mint), First(es, QuoteOffer, mint))
  {
    var fs := Enrich(es);
    assert |fs| == |es|;
    forall k | 0 <= k < |es|
      ensures fs[k] == Enriched(es, es[k])
      ensures FeeOffer(fs[k]) == FeeOffer(es[k]) && QuoteOffer(fs[k]) == QuoteOffer(es[k])
      ensures FlagsOffer(fs[k]) == FlagsOffer(FromCreates(es)[k])
    {
      FirstSourcesWin(es, k);
      EnrichedKeeps(es, es[k]);
    }
    SameOffersSameFirst(fs, es, FeeOffer, mint);
    SameOffersSameFirst(fs, es, QuoteOffer, mint);
    SameOffersSameFirst(fs, FromCreates(es), FlagsOffer, mint);
    forall k | 0 <= k < |es|
      ensures CreateOffer(es[k]).Some? && CreateOffer(es[k]).value.mint == mint ==>
                fs[k] == WithQuote(es[k], First(es, QuoteOffer, mint))
      ensures CreateOffer(es[k]).None? || CreateOffer(es[k]).value.mint != mint ==>
                CreateOffer(fs[k]).None? || CreateOffer(fs[k]).value.mint != mint
    {
      EnrichedKeeps(es, es[k]);
    }
    FirstCreateQuoted(es, fs, mint, First(es, QuoteOffer, mint));
  }

  // Filling in a second time, from the create as the quote pass left it.
  lemma FillsOnce(e: Event, c: Option<Info>, fee: Option<Text>, quote: Option<Text>, flags: Option<Flags>)
    requires quote.Some? ==> !UnknownOrSol(quote.value)
    requires fee.Some? ==> !Unknown(fee.value)
    ensures var f := WithFlags(WithQuote(WithFee(WithCreate(e, c), fee), quote), flags);
            WithFlags(WithQuote(WithFee(WithCreate(f, Quoted(c, quote)), fee), quote), flags) == f
  {
  }

  lemma FlagsSettle(es: seq<Event>, mint: Text)
    requires forall k :: 0 <= k < |es| ==> WithCreate(es[k], CreateFor(es, es[k])) == es[k]
    ensures First(FromCreates(es), FlagsOffer, mint) == First(es, FlagsOffer, mint)
  {
    SameOffersSameFirst(FromCreates(es), es, FlagsOffer, mint);
  }

  lemma CreateFillsOnce(e: Event, c: Option<Info>, fee: Option<Text>, quote: Option<Text>, flags: Option<Flags>)
    requires quote.Some? ==> !UnknownOrSol(quote.value)
    ensures var f := WithFlags(WithQuote(WithFee(WithCreate(e, c), fee), quote), flags);
            WithCreate(f, Quoted(c, quote)) == f
  {
  }

  lemma CreatesSettle(es: seq<Event>, k: nat)
    requires k < |es|
    ensures |Enrich(es)| == |es|
    ensures WithCreate(Enrich(es)[k], CreateFor(Enrich(es), Enrich(es)[k])) == Enrich(es)[k]
  {
    FirstSourcesWin(es, k);
    EnrichedKeeps(es, es[k]);
    SourcesAfter(es, MintOf(es[k]));
    OffersAreKnown(es, MintOf(es[k]));
    CreateFillsOnce(es[k], CreateFor(es, es[k]), FeeFor(es, es[k]), QuoteFor(es, es[k]), FlagsFor(es, es[k]));
  }

  /** Enriching again changes nothing. */
  lemma OnceIsEnough(es: seq<Event>)
    ensures Enrich(Enrich(es)) == Enrich(es)
  {
    var fs := Enrich(es);
    assert |fs| == |es|;
    forall k | 0 <= k < |es|
      ensures WithCreate(fs[k], CreateFor(fs, fs[k])) == fs[k]
    {
      CreatesSettle(es, k);
    }
    forall k | 0 <= k < |es|
      ensures Enrich(fs)[k] == fs[k]
    {
      FirstSourcesWin(es, k);
      FirstSourcesWin(fs, k);
      EnrichedKeeps(es, es[k]);
      SourcesAfter(es, MintOf(es[k]));
      FlagsSettle(fs, MintOf(es[k]));
      OffersAreKnown(es, MintOf(es[k]));
      FillsOnce(es[k], CreateFor(es, es[k]), FeeFor(es, es[k]), QuoteFor(es, es[k]), FlagsFor(es, es[k]));
    }
  }
}
