/**
 What the Pump.fun events of one transaction tell each other: four passes, each of which finds the
 first source for every mint and then fills in the events of that mint.
 */
module EnrichSpec {
  import opened Prelude

  type Text = nat

  // An absent or empty text, the default public key, and the placeholder for a SOL quote.
  const EMPTY: Text := 0
  const DEFAULT_ADDRESS: Text := 1
  const SOL_QUOTE: Text := 2

  predicate Unknown(t: Text) {
    t == EMPTY || t == DEFAULT_ADDRESS
  }

  predicate UnknownOrSol(t: Text) {
    Unknown(t) || t == SOL_QUOTE
  }

  datatype Info = Info(
    mint: Text, name: Text, symbol: Text, uri: Text, bondingCurve: Text, user: Text, creator: Text,
    tokenProgram: Text, quoteMint: Text, quoteVault: Text, quoteTokenProgram: Text,
    timestamp: int, virtualTokenReserves: int, virtualSolReserves: int, realTokenReserves: int,
    tokenTotalSupply: int, virtualQuoteReserves: int, mayhem: bool, cashback: bool)

  datatype Kind = Any | Buy | Sell | BuyExactSolIn

  datatype Event =
    | Create(info: Info)
    | CreateV2(info: Info, observedFee: Text)
    | Trade(kind: Kind, mint: Text, feeRecipient: Text, quoteMint: Text, isBuy: bool,
            cashback: bool, mayhem: bool, trackVolume: bool)
    | Other

  function MintOf(e: Event): Text {
    match e
    case Create(info) => info.mint
    case CreateV2(info, _) => info.mint
    case Trade(_, mint, _, _, _, _, _, _) => mint
    case Other => EMPTY
  }

  // ----- Sources -----

  datatype Offer<V> = Offer(mint: Text, value: V)

  function CreateOffer(e: Event): Option<Offer<Info>> {
    if e.Create? && !Unknown(e.info.mint) then Some(Offer(e.info.mint, e.info)) else None
  }

  predicate BuyLike(e: Event) {
    e.Trade? && ((e.kind.Any? && e.isBuy) || e.kind.Buy? || e.kind.BuyExactSolIn?)
  }

  function FeeOffer(e: Event): Option<Offer<Text>> {
    if BuyLike(e) && !Unknown(e.mint) && !Unknown(e.feeRecipient) then Some(Offer(e.mint, e.feeRecipient)) else None
  }

  function QuoteOffer(e: Event): Option<Offer<Text>> {
    if e.Trade? && !Unknown(e.mint) && !UnknownOrSol(e.quoteMint) then Some(Offer(e.mint, e.quoteMint)) else None
  }

  datatype Flags = Flags(cashback: bool, mayhem: bool)

  function FlagsOffer(e: Event): Option<Offer<Flags>> {
    if (e.Create? || e.CreateV2?) && !Unknown(e.info.mint)
    then Some(Offer(e.info.mint, Flags(e.info.cashback, e.info.mayhem))) else None
  }

  // The first offer for a mint, in the order of the events.
  function First<V>(es: seq<Event>, offer: Event -> Option<Offer<V>>, mint: Text): Option<V> {
    if es == [] then None
    else if First(es[..|es| - 1], offer, mint).Some? then First(es[..|es| - 1], offer, mint)
    else if offer(es[|es| - 1]).Some? && offer(es[|es| - 1]).value.mint == mint then Some(offer(es[|es| - 1]).value.value)
    else None
  }

  // ----- Filling in -----

  function Fill(t: Text, from: Text): Text {
    if Unknown(t) && !Unknown(from) then from else t
  }

  function FillAmount(n: int, from: int): int {
    if n == 0 && from != 0 then from else n
  }

  function FillInfo(i: Info, c: Info): Info {
    Info(i.mint, Fill(i.name, c.name), Fill(i.symbol, c.symbol), Fill(i.uri, c.uri),
         Fill(i.bondingCurve, c.bondingCurve), Fill(i.user, c.user), Fill(i.creator, c.creator),
         Fill(i.tokenProgram, c.tokenProgram), Fill(i.quoteMint, c.quoteMint), Fill(i.quoteVault, c.quoteVault),
         Fill(i.quoteTokenProgram, c.quoteTokenProgram), FillAmount(i.timestamp, c.timestamp),
         FillAmount(i.virtualTokenReserves, c.virtualTokenReserves),
         FillAmount(i.virtualSolReserves, c.virtualSolReserves), FillAmount(i.realTokenReserves, c.realTokenReserves),
         FillAmount(i.tokenTotalSupply, c.tokenTotalSupply), FillAmount(i.virtualQuoteReserves, c.virtualQuoteReserves),
         i.mayhem || c.mayhem, i.cashback || c.cashback)
  }

  function WithCreate(e: Event, c: Option<Info>): Event {
    if e.CreateV2? && c.Some? then e.(info := FillInfo(e.info, c.value)) else e
  }

  function WithFee(e: Event, fee: Option<Text>): Event {
    if e.CreateV2? && Unknown(e.observedFee) && fee.Some? then e.(observedFee := fee.value) else e
  }

  function WithQuote(e: Event, quote: Option<Text>): Event {
    if (e.Create? || e.CreateV2?) && UnknownOrSol(e.info.quoteMint) && quote.Some?
    then e.(info := e.info.(quoteMint := quote.value)) else e
  }

  function WithFlags(e: Event, flags: Option<Flags>): Event {
    if e.Trade? && !Unknown(e.mint) && flags.Some?
    then e.(cashback := e.cashback || flags.value.cashback, mayhem := e.mayhem || flags.value.mayhem,
            trackVolume := e.trackVolume || flags.value.cashback)
    else e
  }

  function FromCreates(es: seq<Event>): seq<Event> {
    seq(|es|, k requires 0 <= k < |es| => WithCreate(es[k], First(es, CreateOffer, MintOf(es[k]))))
  }

  function FromFees(es: seq<Event>): seq<Event> {
    seq(|es|, k requires 0 <= k < |es| => WithFee(es[k], First(es, FeeOffer, MintOf(es[k]))))
  }

  function FromQuotes(es: seq<Event>): seq<Event> {
    seq(|es|, k requires 0 <= k < |es| => WithQuote(es[k], First(es, QuoteOffer, MintOf(es[k]))))
  }

  function FromFlags(es: seq<Event>): seq<Event> {
    seq(|es|, k requires 0 <= k < |es| => WithFlags(es[k], First(es, FlagsOffer, MintOf(es[k]))))
  }

  function Enrich(es: seq<Event>): seq<Event> {
    FromFlags(FromQuotes(FromFees(FromCreates(es))))
  }
}
