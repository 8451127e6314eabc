/** The four passes over the events, which they update in place. */
module Enrichment {
  import opened Prelude
  import opened EnrichSpec

  // Finds the first source of every mint.
  method FirstWins<V>(es: seq<Event>, offer: Event -> Option<Offer<V>>) returns (sources: map<Text, V>)
    ensures forall m :: First(es, offer, m) == if m in sources then Some(sources[m]) else None
  {
    sources := map[];
    for i := 0 to |es|
      invariant forall m :: First(es[..i], offer, m) == if m in sources then Some(sources[m]) else None
    {
      assert es[..i + 1][..i] == es[..i];
      var o := offer(es[i]);
      if o.Some? && o.value.mint !in sources {
        sources := sources[o.value.mint := o.value.value];
      }
    }
    assert es[..|es|] == es;
  }

  function Lookup<V>(sources: map<Text, V>, mint: Text): Option<V> {
    if mint in sources then Some(sources[mint]) else None
  }

  method EnrichCreateV2FromCreates(events: array<Event>)
    modifies events
    ensures events[..] == FromCreates(old(events[..]))
  {
    var creates := FirstWins(events[..], CreateOffer);
    for i := 0 to events.Length
      invariant forall k :: 0 <= k < i ==> events[k] == FromCreates(old(events[..]))[k]
      invariant forall k :: i <= k < events.Length ==> events[k] == old(events[k])
    {
      if events[i].CreateV2? {
        events[i] := WithCreate(events[i], Lookup(creates, events[i].info.mint));
      }
    }
  }

  method EnrichCreateV2ObservedFeeRecipient(events: array<Event>)
    modifies events
    ensures events[..] == FromFees(old(events[..]))
  {
    var fees := FirstWins(events[..], FeeOffer);
    for i := 0 to events.Length
      invariant forall k :: 0 <= k < i ==> events[k] == FromFees(old(events[..]))[k]
      invariant forall k :: i <= k < events.Length ==> events[k] == old(events[k])
    {
      if events[i].CreateV2? && Unknown(events[i].observedFee) && events[i].info.mint in fees {
        events[i] := events[i].(observedFee := fees[events[i].info.mint]);
      }
    }
  }

  method EnrichCreateQuoteMintFromTrades(events: array<Event>)
    modifies events
    ensures events[..] == FromQuotes(old(events[..]))
  {
    var quotes := FirstWins(events[..], QuoteOffer);
    for i := 0 to events.Length
      invariant forall k :: 0 <= k < i ==> events[k] == FromQuotes(old(events[..]))[k]
      invariant forall k :: i <= k < events.Length ==> events[k] == old(events[k])
    {
      var e := events[i];
      if (e.Create? || e.CreateV2?) && UnknownOrSol(e.info.quoteMint) && e.info.mint in quotes {
        events[i] := e.(info := e.info.(quoteMint := quotes[e.info.mint]));
      }
    }
  }

  method EnrichTradesFromCreates(events: array<Event>)
    modifies events
    ensures events[..] == FromFlags(old(events[..]))
  {
    var flags := FirstWins(events[..], FlagsOffer);
    for i := 0 to events.Length
      invariant forall k :: 0 <= k < i ==> events[k] == FromFlags(old(events[..]))[k]
      invariant forall k :: i <= k < events.Length ==> events[k] == old(events[k])
    {
      var e := events[i];
      if e.Trade? && !Unknown(e.mint) && e.mint in flags {
        var f := flags[e.mint];
        e := e.(cashback := e.cashback || f.cashback, mayhem := e.mayhem || f.mayhem);
        if f.cashback {
          e := e.(trackVolume := true);
        }
        events[i] := e;
      }
    }
  }

  method EnrichSameTransaction(events: array<Event>)
    modifies events
    ensures events[..] == Enrich(old(events[..]))
  {
    EnrichCreateV2FromCreates(events);
    EnrichCreateV2ObservedFeeRecipient(events);
    EnrichCreateQuoteMintFromTrades(events);
    EnrichTradesFromCreates(events);
  }
}
