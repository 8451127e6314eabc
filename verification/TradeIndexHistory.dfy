/** What the index knows, told from the events: whose pool a pool is, and who created a mint. */
module TradeIndexHistory {
  import opened Prelude
  import opened TradeIndexSpec
  import opened TradeIndexProofs

  // Pool `p` is known to be of mint `m`.
  predicate Knows(i: Index, m: Address, p: Address) {
    p in i.mintByPool && i.mintByPool[p] == m
  }

  /**
   An event tells that pool `p` is of mint `m`: a migration of a tracked mint; or, of a pool not known yet, a sight
   of it with the tracked mint as its base, or as its quote if its base is not tracked.
   */
  predicate Tells(i: Index, e: Event, m: Address, p: Address) {
    && m != EMPTY && p != EMPTY && m in i.developers
    && match e
       case Created(_, _) => false
       case Migrated(mint, pool) => mint == m && pool == p
       case Seen(market) =>
         && market.pool == p && p !in i.mintByPool
         && if market.baseMint in i.developers then market.baseMint == m else market.quoteMint == m
  }

  // ----- One event -----

  lemma {:induction false} ShrinkForgets(i: Index, cfg: Settings, m: Address, p: Address)
    requires Consistent(i, cfg)
    ensures Knows(Shrink(i, cfg), m, p) <==> Knows(i, m, p) && m in Shrink(i, cfg).developers
    ensures Shrink(i, cfg).developers.Keys <= i.developers.Keys
    decreases |i.order|
  {
    if Overfull(i.order, cfg) {
      var j := WithoutFirst(i, cfg);
      WithoutFirstIsConsistent(i, cfg);
      ShrinkForgets(j, cfg, m, p);
      FirstIsForgotten(i, cfg, m, p);
      assert i.order[0] in i.order && i.order[0] != EMPTY;
    } else if Knows(i, m, p) {
      KnownIsTracked(i, cfg, m, p);
    }
  }

  lemma KnownIsTracked(i: Index, cfg: Settings, m: Address, p: Address)
    requires Consistent(i, cfg) && Knows(i, m, p)
    ensures m in i.developers
  {
  }

  lemma FirstIsForgotten(i: Index, cfg: Settings, m: Address, p: Address)
    requires Consistent(i, cfg) && i.order != []
    ensures Knows(WithoutFirst(i, cfg), m, p) <==> Knows(i, m, p) && m != i.order[0]
  {
  }

  lemma InsertKnows(i: Index, mint: Address, creator: Address, cfg: Settings, m: Address, p: Address)
    requires Sound(i, cfg) && mint != EMPTY
    ensures var j := RememberDeveloper(i, mint, creator, cfg);
            Knows(j, m, p) <==> Knows(i, m, p) && m in j.developers
  {
    InsertIsConsistent(i, mint, creator, cfg);
    ShrinkForgets(Insert(i, mint, creator), cfg, m, p);
  }

  // An event leaves what was known, unless it tells otherwise or the mint is no longer tracked.
  lemma StepKnows(i: Index, e: Event, cfg: Settings, m: Address, p: Address)
    requires Sound(i, cfg)
    ensures var j := Observe(i, e, cfg);
            Knows(j, m, p) <==> m in j.developers && (Tells(i, e, m, p) || (Knows(i, m, p) && forall n :: !Tells(i, e, n, p)))
  {
    match e
    case Created(mint, creator) =>
      if mint != EMPTY && creator != EMPTY {
        InsertKnows(i, mint, creator, cfg, m, p);
      }
    case Migrated(mint, pool) =>
      assert Tells(i, e, mint, pool) <==> mint != EMPTY && pool != EMPTY && mint in i.developers;
    case Seen(market) =>
      SeenKnows(i, market, cfg, m, p);
  }

  lemma SeenKnows(i: Index, market: Market, cfg: Settings, m: Address, p: Address)
    requires Sound(i, cfg)
    ensures var e := Seen(market);
            var j := Observe(i, e, cfg);
            Knows(j, m, p) <==> m in j.developers && (Tells(i, e, m, p) || (Knows(i, m, p) && forall n :: !Tells(i, e, n, p)))
  {
    var mint := TrackedMint(i, market);
    if market.pool in i.mintByPool {
      assert mint == i.mintByPool[market.pool];
    } else {
      assert mint != EMPTY && market.pool != EMPTY ==> Tells(i, Seen(market), mint, market.pool);
    }
  }

  // ----- Over runs -----

  lemma Prefix(events: seq<Event>, n: nat, cfg: Settings)
    requires n < |events|
    ensures Run(events[..n + 1], cfg) == Observe(Run(events[..n], cfg), events[n], cfg)
  {
    assert events[..n + 1][..n] == events[..n];
  }

  predicate TellsAt(events: seq<Event>, k: nat, cfg: Settings, m: Address, p: Address)
    requires k < |events|
  {
    Tells(Run(events[..k], cfg), events[k], m, p)
  }

  ghost predicate SomeTellsAt(events: seq<Event>, k: nat, cfg: Settings, p: Address)
    requires k < |events|
  {
    exists m :: Tells(Run(events[..k], cfg), events[k], m, p)
  }

  predicate TrackedAt(events: seq<Event>, t: nat, cfg: Settings, m: Address)
    requires t <= |events|
  {
    m in Run(events[..t], cfg).developers
  }

  // Event `k` was the last of the first `n` to tell of pool `p`; it told of `m`, which was tracked ever since.
  ghost predicate ToldLast(events: seq<Event>, k: nat, n: nat, cfg: Settings, m: Address, p: Address)
    requires k < n <= |events|
  {
    && TellsAt(events, k, cfg, m, p)
    && (forall t :: k < t <= n ==> TrackedAt(events, t, cfg, m))
    && (forall t :: k < t < n ==> !SomeTellsAt(events, t, cfg, p))
  }

  ghost predicate Told(events: seq<Event>, n: nat, cfg: Settings, m: Address, p: Address)
    requires n <= |events|
  {
    exists k: nat :: k < n && ToldLast(events, k, n, cfg, m, p)
  }

  lemma ToldNext(events: seq<Event>, n: nat, cfg: Settings, m: Address, p: Address)
    requires n < |events|
    ensures Told(events, n + 1, cfg, m, p) <==>
            && TrackedAt(events, n + 1, cfg, m)
            && (TellsAt(events, n, cfg, m, p) || (Told(events, n, cfg, m, p) && !SomeTellsAt(events, n, cfg, p)))
  {
    if Told(events, n + 1, cfg, m, p) {
      var k: nat :| k <= n && ToldLast(events, k, n + 1, cfg, m, p);
      if k < n {
        assert ToldLast(events, k, n, cfg, m, p);
      }
    }
    if TrackedAt(events, n + 1, cfg, m) {
      if TellsAt(events, n, cfg, m, p) {
        assert ToldLast(events, n, n + 1, cfg, m, p);
      } else if Told(events, n, cfg, m, p) && !SomeTellsAt(events, n, cfg, p) {
        var k: nat :| k < n && ToldLast(events, k, n, cfg, m, p);
        assert ToldLast(events, k, n + 1, cfg, m, p);
      }
    }
  }

  /**
   For every run: a pool is known to be of a mint if and only if the last event that told whose it is said so, and
   the mint has been tracked ever since.
   */
  lemma {:induction false} KnowsExactly(events: seq<Event>, n: nat, cfg: Settings, m: Address, p: Address)
    requires n <= |events|
    ensures Knows(Run(events[..n], cfg), m, p) <==> Told(events, n, cfg, m, p)
  {
    if n > 0 {
      KnowsExactly(events, n - 1, cfg, m, p);
      RunIsSound(events[..n - 1], cfg);
      Prefix(events, n - 1, cfg);
      StepKnows(Run(events[..n - 1], cfg), events[n - 1], cfg, m, p);
      ToldNext(events, n - 1, cfg, m, p);
    } else {
      assert events[..0] == [];
    }
  }

  // ----- Creators -----

  predicate Creates(e: Event, m: Address) {
    e.Created? && e.mint == m != EMPTY && e.creator != EMPTY
  }

  // The creator that the last creation of `m` names; EMPTY if there is none.
  function LastCreator(events: seq<Event>, m: Address): Address {
    if events == [] then EMPTY
    else if Creates(events[|events| - 1], m) then events[|events| - 1].creator else LastCreator(events[..|events| - 1], m)
  }

  lemma {:induction false} ShrinkKeepsCreators(i: Index, cfg: Settings)
    requires Consistent(i, cfg)
    ensures forall m :: m in Shrink(i, cfg).developers ==> m in i.developers && Shrink(i, cfg).developers[m] == i.developers[m]
    decreases |i.order|
  {
    if Overfull(i.order, cfg) {
      WithoutFirstIsConsistent(i, cfg);
      ShrinkKeepsCreators(WithoutFirst(i, cfg), cfg);
    }
  }

  /** For every run: the creator known of a tracked mint is the one that its last creation names. */
  lemma {:induction false} CreatorsAreLast(events: seq<Event>, cfg: Settings, m: Address)
    requires m in Run(events, cfg).developers
    ensures Run(events, cfg).developers[m] == LastCreator(events, m)
  {
    if events != [] {
      var n, e := |events| - 1, events[|events| - 1];
      var i := Run(events[..n], cfg);
      RunIsSound(events[..n], cfg);
      if e.Created? && e.mint != EMPTY && e.creator != EMPTY {
        InsertIsConsistent(i, e.mint, e.creator, cfg);
        ShrinkKeepsCreators(Insert(i, e.mint, e.creator), cfg);
      }
      if m in i.developers {
        CreatorsAreLast(events[..n], cfg, m);
      }
    }
  }
}
