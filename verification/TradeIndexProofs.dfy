/** What every run of the trading example's index keeps. */
module TradeIndexProofs {
  import opened Prelude
  import opened TradeIndexSpec

  // ----- The order -----

  lemma {:induction false} WithoutMember(order: seq<Address>, m: Address, x: Address)
    ensures x in Without(order, m) <==> x in order && x != m
  {
    if order != [] {
      var n := |order| - 1;
      WithoutMember(order[..n], m, x);
      assert order == order[..n] + [order[n]];
    }
  }

  lemma DistinctSnoc(s: seq<Address>, x: Address)
    requires Distinct(s) && x !in s
    ensures Distinct(s + [x])
  {
  }

  lemma {:induction false} WithoutDistinct(order: seq<Address>, m: Address)
    requires Distinct(order)
    ensures Distinct(Without(order, m)) && |Without(order, m)| <= |order|
  {
    if order != [] {
      var n := |order| - 1;
      WithoutDistinct(order[..n], m);
      if order[n] != m {
        WithoutMember(order[..n], m, order[n]);
        DistinctSnoc(Without(order[..n], m), order[n]);
      } else {
        assert Without(order, m) == Without(order[..n], m);
      }
    }
  }

  lemma {:induction false} WithoutAbsent(order: seq<Address>, m: Address)
    requires m !in order
    ensures Without(order, m) == order
  {
    if order != [] {
      var n := |order| - 1;
      WithoutAbsent(order[..n], m);
      assert order == order[..n] + [order[n]];
    }
  }

  lemma RefreshLists(order: seq<Address>, keys: set<Address>, m: Address)
    requires Lists(order, keys) && m != EMPTY
    ensures Lists(Refresh(order, m), keys + {m}) && |Refresh(order, m)| <= |order| + 1
  {
    WithoutDistinct(order, m);
    WithoutMember(order, m, m);
    DistinctSnoc(Without(order, m), m);
    forall x: Address
      ensures x in Refresh(order, m) <==> x in keys + {m}
    {
      WithoutMember(order, m, x);
    }
  }

  lemma DropFirstLists(order: seq<Address>, keys: set<Address>)
    requires Lists(order, keys) && order != []
    ensures Lists(order[1..], keys - {order[0]})
  {
    assert forall x :: x in order <==> x == order[0] || x in order[1..];
  }

  // ----- The pool maps -----

  lemma ForgetInverse(mintByPool: map<Address, Address>, poolsByMint: map<Address, set<Address>>, tracked: set<Address>, m: Address)
    requires Inverse(mintByPool, poolsByMint, tracked)
    ensures Inverse(mintByPool - PoolsOf(poolsByMint, m), poolsByMint - {m}, tracked - {m})
  {
    var left := mintByPool - PoolsOf(poolsByMint, m);
    forall p | p in left
      ensures left[p] in poolsByMint - {m} && p in poolsByMint[left[p]]
    {
      assert left[p] == mintByPool[p];
    }
    forall n, p | n in poolsByMint - {m} && p in poolsByMint[n]
      ensures p in left && left[p] == n
    {
      assert mintByPool[p] == n;
    }
  }

  // Removing the pool from its former mint.
  lemma LeaveInverse(mintByPool: map<Address, Address>, poolsByMint: map<Address, set<Address>>, tracked: set<Address>, pool: Address)
    requires Inverse(mintByPool, poolsByMint, tracked) && pool in mintByPool
    ensures var m := mintByPool[pool];
            Inverse(mintByPool - {pool}, poolsByMint[m := poolsByMint[m] - {pool}], tracked)
  {
  }

  lemma JoinInverse(mintByPool: map<Address, Address>, poolsByMint: map<Address, set<Address>>, tracked: set<Address>, mint: Address, pool: Address)
    requires Inverse(mintByPool, poolsByMint, tracked) && pool !in mintByPool && mint in tracked
    ensures Inverse(mintByPool[pool := mint], poolsByMint[mint := PoolsOf(poolsByMint, mint) + {pool}], tracked)
  {
  }

  lemma MoveInverse(i: Index, mint: Address, pool: Address)
    requires Inverse(i.mintByPool, i.poolsByMint, i.developers.Keys) && mint in i.developers && EMPTY !in i.developers
    ensures Inverse(i.mintByPool[pool := mint], MovePool(i, mint, pool), i.developers.Keys)
  {
    if pool !in i.mintByPool {
      JoinInverse(i.mintByPool, i.poolsByMint, i.developers.Keys, mint, pool);
    } else if i.mintByPool[pool] != mint {
      var m := i.mintByPool[pool];
      LeaveInverse(i.mintByPool, i.poolsByMint, i.developers.Keys, pool);
      var left := i.poolsByMint[m := i.poolsByMint[m] - {pool}];
      JoinInverse(i.mintByPool - {pool}, left, i.developers.Keys, mint, pool);
      assert (i.mintByPool - {pool})[pool := mint] == i.mintByPool[pool := mint];
    } else {
      assert i.mintByPool[pool := mint] == i.mintByPool;
      assert i.poolsByMint[mint] + {pool} == i.poolsByMint[mint];
      assert i.poolsByMint[mint := i.poolsByMint[mint]] == i.poolsByMint;
    }
  }

  // ----- One step -----

  // All that holds but the limit.
  ghost predicate Consistent(i: Index, cfg: Settings) {
    && Lists(i.order, i.developers.Keys)
    && Inverse(i.mintByPool, i.poolsByMint, i.developers.Keys)
    && Within(i.accounts, cfg.pinned, i.developers.Keys, i.mintByPool.Keys)
  }

  lemma InverseGrows(mintByPool: map<Address, Address>, poolsByMint: map<Address, set<Address>>, tracked: set<Address>, m: Address)
    requires Inverse(mintByPool, poolsByMint, tracked)
    ensures Inverse(mintByPool, poolsByMint, tracked + {m})
  {
  }

  lemma InsertIsConsistent(i: Index, mint: Address, creator: Address, cfg: Settings)
    requires Consistent(i, cfg) && mint != EMPTY
    ensures Consistent(Insert(i, mint, creator), cfg)
  {
    RefreshLists(i.order, i.developers.Keys, mint);
    assert i.developers[mint := creator].Keys == i.developers.Keys + {mint};
    InverseGrows(i.mintByPool, i.poolsByMint, i.developers.Keys, mint);
  }

  lemma ForgetWithin(accounts: set<Address>, pinned: set<Address>, mints: set<Address>, pools: set<Address>, m: Address, gone: set<Address>)
    requires Within(accounts, pinned, mints, pools)
    ensures Within(accounts - (({m} + gone) - pinned), pinned, mints - {m}, pools - gone)
  {
  }

  lemma WithoutFirstIsConsistent(i: Index, cfg: Settings)
    requires Consistent(i, cfg) && i.order != []
    ensures Consistent(WithoutFirst(i, cfg), cfg)
  {
    var m := i.order[0];
    DropFirstLists(i.order, i.developers.Keys);
    ForgetInverse(i.mintByPool, i.poolsByMint, i.developers.Keys, m);
    ForgetWithin(i.accounts, cfg.pinned, i.developers.Keys, i.mintByPool.Keys, m, PoolsOf(i.poolsByMint, m));
    assert (i.developers - {m}).Keys == i.developers.Keys - {m};
    assert (i.mintByPool - PoolsOf(i.poolsByMint, m)).Keys == i.mintByPool.Keys - PoolsOf(i.poolsByMint, m);
  }

  lemma {:induction false} ShrinkIsSound(i: Index, cfg: Settings)
    requires Consistent(i, cfg)
    ensures Sound(Shrink(i, cfg), cfg)
    ensures Shrink(i, cfg).order == Newest(i.order, cfg)
    decreases |i.order|
  {
    if Overfull(i.order, cfg) {
      var j := WithoutFirst(i, cfg);
      WithoutFirstIsConsistent(i, cfg);
      NewestDrops(i.order, cfg);
      ShrinkIsSound(j, cfg);
      assert i.order[0] != EMPTY;
      assert Shrink(i, cfg) == Shrink(j, cfg);
    }
  }

  lemma NewestDrops(order: seq<Address>, cfg: Settings)
    requires Overfull(order, cfg)
    ensures Newest(order[1..], cfg) == Newest(order, cfg)
  {
  }

  // The last of an order that the limit allows.
  function Newest(order: seq<Address>, cfg: Settings): seq<Address> {
    if Overfull(order, cfg) then order[|order| - cfg.limit..] else order
  }

  lemma PoolIsSound(i: Index, mint: Address, pool: Address, cfg: Settings)
    requires Sound(i, cfg)
    ensures Sound(RememberPool(i, mint, pool), cfg)
  {
    if mint in i.developers {
      MoveInverse(i, mint, pool);
      assert i.mintByPool[pool := mint].Keys == i.mintByPool.Keys + {pool};
    }
  }

  lemma ObserveIsSound(i: Index, e: Event, cfg: Settings)
    requires Sound(i, cfg)
    ensures Sound(Observe(i, e, cfg), cfg)
  {
    match e
    case Created(mint, creator) =>
      if mint != EMPTY && creator != EMPTY {
        InsertIsConsistent(i, mint, creator, cfg);
        ShrinkIsSound(Insert(i, mint, creator), cfg);
      }
    case Migrated(mint, pool) => PoolIsSound(i, mint, pool, cfg);
    case Seen(market) => PoolIsSound(i, TrackedMint(i, market), market.pool, cfg);
  }

  /**
   After any observations: the pool maps are exact inverses over tracked mints only, the number of
   tracked mints never exceeds a positive limit, and the accounts hold everything pinned and
   nothing beyond the pinned ones, the tracked mints and their pools.
   */
  lemma {:induction false} RunIsSound(events: seq<Event>, cfg: Settings)
    ensures Sound(Run(events, cfg), cfg)
  {
    if events != [] {
      RunIsSound(events[..|events| - 1], cfg);
      ObserveIsSound(Run(events[..|events| - 1], cfg), events[|events| - 1], cfg);
    }
  }

  // ----- Which mints stay -----

  // Every mint ever created, in the order of its last creation event.
  function Recency(events: seq<Event>): seq<Address> {
    if events == [] then []
    else
      match events[|events| - 1]
      case Created(mint, creator) =>
        if mint != EMPTY && creator != EMPTY then Refresh(Recency(events[..|events| - 1]), mint)
        else Recency(events[..|events| - 1])
      case _ => Recency(events[..|events| - 1])
  }

  lemma {:induction false} WithoutSum(a: seq<Address>, b: seq<Address>, m: Address)
    ensures Without(a + b, m) == Without(a, m) + Without(b, m)
  {
    if b == [] {
      assert a + b == a;
    } else {
      var n := |b| - 1;
      assert (a + b)[..|a| + n] == a + b[..n];
      WithoutSum(a, b[..n], m);
    }
  }

  lemma {:induction false} RecencyIsDistinct(events: seq<Event>)
    ensures Distinct(Recency(events))
  {
    if events != [] {
      RecencyIsDistinct(events[..|events| - 1]);
      if events[|events| - 1].Created? {
        var m := events[|events| - 1].mint;
        WithoutDistinct(Recency(events[..|events| - 1]), m);
        WithoutMember(Recency(events[..|events| - 1]), m, m);
        DistinctSnoc(Without(Recency(events[..|events| - 1]), m), m);
      }
    }
  }

  // Refreshing keeps the last ones last.
  lemma NewestRefreshes(all: seq<Address>, m: Address, cfg: Settings)
    requires Distinct(all)
    ensures Newest(Refresh(Newest(all, cfg), m), cfg) == Newest(Refresh(all, m), cfg)
  {
    if Overfull(all, cfg) {
      var k := |all| - cfg.limit;
      var earlier, last := all[..k], all[k..];
      assert all == earlier + last;
      WithoutSum(earlier, last, m);
      if m in last {
        AbsentEarlier(all, k, m);
        WithoutAbsent(earlier, m);
        WithoutPresent(last, m);
        NewestOfSum(earlier, Refresh(last, m), cfg);
        assert Refresh(all, m) == earlier + Refresh(last, m);
      } else {
        WithoutAbsent(last, m);
        NewestOfLonger(Without(earlier, m), last, m, cfg);
        assert Refresh(all, m) == Without(earlier, m) + last + [m];
      }
    }
  }

  lemma AbsentEarlier(all: seq<Address>, k: nat, m: Address)
    requires Distinct(all) && k <= |all| && m in all[k..]
    ensures m !in all[..k]
  {
  }

  lemma NewestOfLonger(earlier: seq<Address>, last: seq<Address>, m: Address, cfg: Settings)
    requires cfg.limit > 0 && |last| == cfg.limit
    ensures Newest(last + [m], cfg) == Newest(earlier + last + [m], cfg)
  {
  }

  lemma {:induction false} WithoutPresent(order: seq<Address>, m: Address)
    requires Distinct(order) && m in order
    ensures |Without(order, m)| == |order| - 1
  {
    var n := |order| - 1;
    if order[n] == m {
      assert m !in order[..n];
      WithoutAbsent(order[..n], m);
    } else {
      assert m in order[..n] by {
        var x :| 0 <= x < |order| && order[x] == m;
        assert order[..n][x] == m;
      }
      WithoutPresent(order[..n], m);
    }
  }

  lemma NewestOfSum(earlier: seq<Address>, last: seq<Address>, cfg: Settings)
    requires cfg.limit > 0 && |last| == cfg.limit
    ensures Newest(last, cfg) == Newest(earlier + last, cfg)
  {
  }

  /** Mints go in the order in which they were last refreshed: those most recently created stay. */
  lemma {:induction false} NewestMintsStay(events: seq<Event>, cfg: Settings)
    ensures Run(events, cfg).order == Newest(Recency(events), cfg)
  {
    if events != [] {
      var before, e := events[..|events| - 1], events[|events| - 1];
      NewestMintsStay(before, cfg);
      if e.Created? && e.mint != EMPTY && e.creator != EMPTY {
        RunIsSound(before, cfg);
        InsertIsConsistent(Run(before, cfg), e.mint, e.creator, cfg);
        ShrinkIsSound(Insert(Run(before, cfg), e.mint, e.creator), cfg);
        RecencyIsDistinct(before);
        NewestRefreshes(Recency(before), e.mint, cfg);
      }
    }
  }

  // ----- The accounts -----

  // All mints and pools seen so far come from two disjoint sets of addresses.
  ghost predicate From(e: Event, mints: set<Address>, pools: set<Address>) {
    match e
    case Created(mint, _) => mint in mints
    case Migrated(_, pool) => pool in pools
    case Seen(market) => market.pool in pools
  }

  ghost predicate Exact(i: Index, cfg: Settings) {
    i.accounts == cfg.pinned + i.developers.Keys + i.mintByPool.Keys
  }

  ghost predicate Apart(i: Index, mints: set<Address>, pools: set<Address>) {
    i.developers.Keys <= mints && i.mintByPool.Keys <= pools
  }

  lemma WithoutFirstIsExact(i: Index, cfg: Settings, mints: set<Address>, pools: set<Address>)
    requires Consistent(i, cfg) && i.order != [] && Exact(i, cfg) && Apart(i, mints, pools) && mints !! pools
    ensures Exact(WithoutFirst(i, cfg), cfg) && Apart(WithoutFirst(i, cfg), mints, pools)
  {
    var m := i.order[0];
    var gone := PoolsOf(i.poolsByMint, m);
    assert m in i.developers.Keys;
    assert gone <= i.mintByPool.Keys;
    assert (i.developers - {m}).Keys == i.developers.Keys - {m};
    assert (i.mintByPool - gone).Keys == i.mintByPool.Keys - gone;
    ExactForgets(i.accounts, cfg.pinned, i.developers.Keys, i.mintByPool.Keys, m, gone);
  }

  lemma ExactForgets(accounts: set<Address>, pinned: set<Address>, mints: set<Address>, pools: set<Address>, m: Address, gone: set<Address>)
    requires accounts == pinned + mints + pools && m in mints && gone <= pools && mints !! pools
    ensures accounts - (({m} + gone) - pinned) == pinned + (mints - {m}) + (pools - gone)
  {
  }

  lemma {:induction false} ShrinkIsExact(i: Index, cfg: Settings, mints: set<Address>, pools: set<Address>)
    requires Consistent(i, cfg) && Exact(i, cfg) && Apart(i, mints, pools) && mints !! pools
    ensures Exact(Shrink(i, cfg), cfg) && Apart(Shrink(i, cfg), mints, pools)
    decreases |i.order|
  {
    if Overfull(i.order, cfg) && i.order[0] != EMPTY {
      WithoutFirstIsConsistent(i, cfg);
      WithoutFirstIsExact(i, cfg, mints, pools);
      ShrinkIsExact(WithoutFirst(i, cfg), cfg, mints, pools);
    }
  }

  lemma InsertIsExact(i: Index, mint: Address, creator: Address, cfg: Settings)
    requires Exact(i, cfg)
    ensures Exact(Insert(i, mint, creator), cfg)
  {
    assert i.developers[mint := creator].Keys == i.developers.Keys + {mint};
  }

  lemma PoolIsExact(i: Index, mint: Address, pool: Address, cfg: Settings)
    requires Exact(i, cfg)
    ensures Exact(RememberPool(i, mint, pool), cfg)
  {
    if mint in i.developers {
      assert i.mintByPool[pool := mint].Keys == i.mintByPool.Keys + {pool};
    }
  }

  lemma ObserveIsExact(i: Index, e: Event, cfg: Settings, mints: set<Address>, pools: set<Address>)
    requires Sound(i, cfg) && Exact(i, cfg) && Apart(i, mints, pools) && mints !! pools && From(e, mints, pools)
    ensures Exact(Observe(i, e, cfg), cfg) && Apart(Observe(i, e, cfg), mints, pools)
  {
    match e
    case Created(mint, creator) =>
      if mint != EMPTY && creator != EMPTY {
        InsertIsConsistent(i, mint, creator, cfg);
        InsertIsExact(i, mint, creator, cfg);
        ShrinkIsExact(Insert(i, mint, creator), cfg, mints, pools);
      }
    case Migrated(mint, pool) => PoolIsExact(i, mint, pool, cfg);
    case Seen(market) => PoolIsExact(i, TrackedMint(i, market), market.pool, cfg);
  }

  /**
   If no address is both a mint and a pool, the accounts subscribed to are exactly the pinned ones,
   the tracked mints and their pools.
   */
  lemma {:induction false} AccountsAreExact(events: seq<Event>, cfg: Settings, mints: set<Address>, pools: set<Address>)
    requires mints !! pools && forall k :: 0 <= k < |events| ==> From(events[k], mints, pools)
    ensures Exact(Run(events, cfg), cfg) && Apart(Run(events, cfg), mints, pools)
  {
    if events != [] {
      var n := |events| - 1;
      AccountsAreExact(events[..n], cfg, mints, pools);
      RunIsSound(events[..n], cfg);
      ObserveIsExact(Run(events[..n], cfg), events[n], cfg, mints, pools);
    }
  }

  /**
   Forgetting the first mint leaves the accounts exact if and only if that mint is not, unless pinned,
   a pool of another tracked mint, and none of its pools is, unless pinned, itself a tracked mint.
   */
  lemma ForgetsExactly(i: Index, cfg: Settings)
    requires Consistent(i, cfg) && i.order != [] && Exact(i, cfg)
    ensures Exact(WithoutFirst(i, cfg), cfg) <==> CanForget(i, cfg)
  {
    var m := i.order[0];
    var gone := PoolsOf(i.poolsByMint, m);
    assert (i.developers - {m}).Keys == i.developers.Keys - {m};
    assert (i.mintByPool - gone).Keys == i.mintByPool.Keys - gone;
    SetsForget(i.accounts, cfg.pinned, i.developers.Keys, i.mintByPool.Keys, m, gone);
  }

  // What forgetting the first mint needs, to lose no account that is still wanted.
  predicate CanForget(i: Index, cfg: Settings)
    requires i.order != []
  {
    var m, gone := i.order[0], PoolsOf(i.poolsByMint, i.order[0]);
    (m in cfg.pinned || m !in i.mintByPool.Keys - gone) && (gone - cfg.pinned) !! (i.developers.Keys - {m})
  }

  /** A create displaces the mint refreshed longest ago, while it or its pools are wanted otherwise. */
  predicate Harms(i: Index, e: Event, cfg: Settings) {
    e.Created? && e.mint != EMPTY && e.creator != EMPTY
    && var j := Insert(i, e.mint, e.creator); Overfull(j.order, cfg) && !CanForget(j, cfg)
  }

  // At most one mint has to go.
  lemma InsertShrinksOnce(i: Index, mint: Address, creator: Address, cfg: Settings)
    requires Sound(i, cfg) && mint != EMPTY
    ensures var j := Insert(i, mint, creator);
            Shrink(j, cfg) == if Overfull(j.order, cfg) then WithoutFirst(j, cfg) else j
  {
    RefreshLists(i.order, i.developers.Keys, mint);
    var j := Insert(i, mint, creator);
    if Overfull(j.order, cfg) {
      assert j.order[0] in j.order;
      var k := WithoutFirst(j, cfg);
      assert Shrink(k, cfg) == k;
    }
  }

  lemma ObserveExactly(i: Index, e: Event, cfg: Settings)
    requires Sound(i, cfg) && Exact(i, cfg)
    ensures Exact(Observe(i, e, cfg), cfg) <==> !Harms(i, e, cfg)
  {
    match e
    case Created(mint, creator) =>
      if mint != EMPTY && creator != EMPTY {
        InsertIsConsistent(i, mint, creator, cfg);
        InsertIsExact(i, mint, creator, cfg);
        InsertShrinksOnce(i, mint, creator, cfg);
        if Overfull(Insert(i, mint, creator).order, cfg) {
          ForgetsExactly(Insert(i, mint, creator), cfg);
        }
      }
    case Migrated(mint, pool) => PoolIsExact(i, mint, pool, cfg);
    case Seen(market) => PoolIsExact(i, TrackedMint(i, market), market.pool, cfg);
  }

  ghost predicate AlwaysExact(events: seq<Event>, cfg: Settings) {
    forall k :: 0 <= k <= |events| ==> Exact(Run(events[..k], cfg), cfg)
  }

  ghost predicate NeverHarms(events: seq<Event>, cfg: Settings) {
    forall k :: 0 <= k < |events| ==> !Harms(Run(events[..k], cfg), events[k], cfg)
  }

  /** Over every run, the accounts are exact throughout if and only if no create displaces a wanted account. */
  lemma {:induction false} AccountsExactExactly(events: seq<Event>, cfg: Settings)
    ensures AlwaysExact(events, cfg) <==> NeverHarms(events, cfg)
  {
    if events == [] {
      assert events[..0] == [];
      assert Exact(Run([], cfg), cfg);
    } else {
      var before := events[..|events| - 1];
      AccountsExactExactly(before, cfg);
      PrefixesOf(events, cfg);
      if AlwaysExact(before, cfg) {
        LastStepExactly(events, cfg);
      }
    }
  }

  lemma LastStepExactly(events: seq<Event>, cfg: Settings)
    requires events != [] && AlwaysExact(events[..|events| - 1], cfg)
    ensures Exact(Run(events, cfg), cfg) <==> !Harms(Run(events[..|events| - 1], cfg), events[|events| - 1], cfg)
  {
    var before := events[..|events| - 1];
    assert before[..|before|] == before;
    RunIsSound(before, cfg);
    ObserveExactly(Run(before, cfg), events[|events| - 1], cfg);
  }

  lemma PrefixesOf(events: seq<Event>, cfg: Settings)
    requires events != []
    ensures var n, before := |events| - 1, events[..|events| - 1];
            && (AlwaysExact(events, cfg) <==> AlwaysExact(before, cfg) && Exact(Run(events, cfg), cfg))
            && (NeverHarms(events, cfg) <==> NeverHarms(before, cfg) && !Harms(Run(before, cfg), events[n], cfg))
  {
    var n, before := |events| - 1, events[..|events| - 1];
    forall k | 0 <= k <= n
      ensures events[..k] == before[..k]
    {
    }
    assert events[..n + 1] == events;
  }

  lemma SetsForget(accounts: set<Address>, pinned: set<Address>, mints: set<Address>, pools: set<Address>, m: Address, gone: set<Address>)
    requires accounts == pinned + mints + pools
    ensures accounts - (({m} + gone) - pinned) == pinned + (mints - {m}) + (pools - gone) <==>
            (m in pinned || m !in pools - gone) && (gone - pinned) !! (mints - {m})
  {
    var after, exact := accounts - (({m} + gone) - pinned), pinned + (mints - {m}) + (pools - gone);
    forall x: Address
      ensures (x in after <==> x in exact) <==>
              x in pinned || ((x == m ==> x !in pools - gone) && (x in gone ==> x !in mints - {m}))
    {
    }
    if after == exact {
      assert m in pinned || m !in pools - gone;
      forall x | x in gone - pinned
        ensures x !in mints - {m}
      {
        assert x in after <==> x in exact;
      }
    } else {
      var x :| x in after <==> x !in exact;
      assert x == m || x in (gone - pinned) * (mints - {m});
    }
  }

  lemma RunNext(events: seq<Event>, e: Event, cfg: Settings)
    ensures Run(events + [e], cfg) == Observe(Run(events, cfg), e, cfg)
  {
    assert (events + [e])[..|events|] == events;
  }

  // A mint not seen before, while there is room.
  lemma NewMint(i: Index, mint: Address, cfg: Settings)
    requires mint != EMPTY && mint !in i.order && !Overfull(i.order + [mint], cfg)
    ensures Observe(i, Created(mint, 9), cfg)
         == Index(i.order + [mint], i.developers[mint := 9], i.mintByPool, i.poolsByMint, i.accounts + {mint})
  {
    WithoutAbsent(i.order, mint);
  }

  const TWO_MINTS: seq<Event> := [] + [Created(2, 9)] + [Created(3, 9)]

  lemma TwoMints(cfg: Settings)
    requires cfg == Settings(2, {})
    ensures Run(TWO_MINTS, cfg) == Index([] + [2] + [3], map[2 := 9, 3 := 9], map[], map[], {2, 3})
  {
    RunNext([], Created(2, 9), cfg);
    NewMint(Start(cfg), 2, cfg);
    RunNext([] + [Created(2, 9)], Created(3, 9), cfg);
    NewMint(Run([] + [Created(2, 9)], cfg), 3, cfg);
  }

  lemma PoolOfThird(cfg: Settings)
    requires cfg == Settings(2, {})
    ensures Run(TWO_MINTS + [Migrated(3, 2)], cfg)
         == Index([] + [2] + [3], map[2 := 9, 3 := 9], map[2 := 3], map[3 := {2}], {2, 3})
  {
    TwoMints(cfg);
    RunNext(TWO_MINTS, Migrated(3, 2), cfg);
    var b := Run(TWO_MINTS, cfg);
    assert PoolsOf(b.poolsByMint, 3) + {2} == {2};
    assert MovePool(b, 3, 2) == map[3 := {2}];
    assert b.accounts + {2} == {2, 3};
  }

  lemma FourthDisplacesSecond(c: Index, cfg: Settings)
    requires cfg == Settings(2, {}) && c == Index([] + [2] + [3], map[2 := 9, 3 := 9], map[2 := 3], map[3 := {2}], {2, 3})
    ensures var d := RememberDeveloper(c, 4, 9, cfg);
            d.mintByPool == map[2 := 3] && 3 in d.developers && 2 !in d.accounts
  {
    assert c.order == [2, 3];
    WithoutAbsent(c.order, 4);
    var d := Insert(c, 4, 9);
    assert d.order == [2, 3, 4] && PoolsOf(d.poolsByMint, 2) == {};
    assert Shrink(d, cfg) == WithoutFirst(d, cfg);
    assert WithoutFirst(d, cfg).mintByPool == map[2 := 3];
  }

  /** Address 2 is forgotten as a mint while it is a pool of mint 3: it is no longer subscribed to. */
  lemma SharedAddressIsLost()
    ensures var i := Run(TWO_MINTS + [Migrated(3, 2)] + [Created(4, 9)], Settings(2, {}));
            i.mintByPool == map[2 := 3] && 3 in i.developers && 2 !in i.accounts
  {
    var cfg := Settings(2, {});
    PoolOfThird(cfg);
    RunNext(TWO_MINTS + [Migrated(3, 2)], Created(4, 9), cfg);
    FourthDisplacesSecond(Run(TWO_MINTS + [Migrated(3, 2)], cfg), cfg);
  }
}
