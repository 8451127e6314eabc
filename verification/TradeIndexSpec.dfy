/**
 Which mints a trading example tracks, which pools belong to them, and which accounts it therefore
 subscribes to. Mints are kept in the order in which they were last refreshed.
 */
module TradeIndexSpec {
  import opened Prelude

  type Address = nat

  // The empty string: no address.
  const EMPTY: Address := 0

  // A limit of zero or less keeps every mint.
  datatype Settings = Settings(limit: int, pinned: set<Address>)

  datatype Index = Index(
    order: seq<Address>,                    // tracked mints, the one to go first in front
    developers: map<Address, Address>,      // mint to creator
    mintByPool: map<Address, Address>,
    poolsByMint: map<Address, set<Address>>,
    accounts: set<Address>)

  function Start(cfg: Settings): Index {
    Index([], map[], map[], map[], cfg.pinned)
  }

  function Without(order: seq<Address>, m: Address): seq<Address> {
    if order == [] then []
    else Without(order[..|order| - 1], m) + if order[|order| - 1] == m then [] else [order[|order| - 1]]
  }

  // A refreshed mint goes to the end.
  function Refresh(order: seq<Address>, m: Address): seq<Address> {
    Without(order, m) + [m]
  }

  function PoolsOf(pools: map<Address, set<Address>>, m: Address): set<Address> {
    if m in pools then pools[m] else {}
  }

  function Forget(i: Index, m: Address, cfg: Settings): Index {
    Index(Without(i.order, m), i.developers - {m}, i.mintByPool - PoolsOf(i.poolsByMint, m), i.poolsByMint - {m},
          i.accounts - (({m} + PoolsOf(i.poolsByMint, m)) - cfg.pinned))
  }

  predicate Overfull(order: seq<Address>, cfg: Settings) {
    cfg.limit > 0 && |order| > cfg.limit
  }

  function WithoutFirst(i: Index, cfg: Settings): Index
    requires i.order != []
  {
    Forget(i, i.order[0], cfg).(order := i.order[1..])
  }

  function Shrink(i: Index, cfg: Settings): Index
    decreases |i.order|
  {
    if !Overfull(i.order, cfg) || i.order[0] == EMPTY then i else Shrink(WithoutFirst(i, cfg), cfg)
  }

  function Insert(i: Index, mint: Address, creator: Address): Index {
    i.(order := Refresh(i.order, mint), developers := i.developers[mint := creator], accounts := i.accounts + {mint})
  }

  function RememberDeveloper(i: Index, mint: Address, creator: Address, cfg: Settings): Index {
    Shrink(Insert(i, mint, creator), cfg)
  }

  function MovePool(i: Index, mint: Address, pool: Address): map<Address, set<Address>> {
    var left :=
      if pool in i.mintByPool && i.mintByPool[pool] != EMPTY && i.mintByPool[pool] != mint && i.mintByPool[pool] in i.poolsByMint
      then i.poolsByMint[i.mintByPool[pool] := i.poolsByMint[i.mintByPool[pool]] - {pool}] else i.poolsByMint;
    left[mint := PoolsOf(left, mint) + {pool}]
  }

  function RememberPool(i: Index, mint: Address, pool: Address): Index {
    if mint !in i.developers then i
    else i.(mintByPool := i.mintByPool[pool := mint], poolsByMint := MovePool(i, mint, pool), accounts := i.accounts + {pool})
  }

  // What the stream shows of a trade or a new pool.
  datatype Market = Market(pool: Address, baseMint: Address, quoteMint: Address)

  function TrackedMint(i: Index, m: Market): Address {
    if m.pool in i.mintByPool && i.mintByPool[m.pool] != EMPTY && i.mintByPool[m.pool] in i.developers
    then i.mintByPool[m.pool]
    else if m.baseMint != EMPTY && m.baseMint in i.developers then m.baseMint
    else if m.quoteMint != EMPTY && m.quoteMint in i.developers then m.quoteMint
    else EMPTY
  }

  datatype Event =
    | Created(mint: Address, creator: Address)
    | Migrated(mint: Address, pool: Address)
    | Seen(market: Market) // a new pool, a buy or a sale

  function Observe(i: Index, e: Event, cfg: Settings): Index {
    match e
    case Created(mint, creator) =>
      if mint != EMPTY && creator != EMPTY then RememberDeveloper(i, mint, creator, cfg) else i
    case Migrated(mint, pool) =>
      if mint != EMPTY && pool != EMPTY then RememberPool(i, mint, pool) else i
    case Seen(market) =>
      if TrackedMint(i, market) != EMPTY && market.pool != EMPTY
      then RememberPool(i, TrackedMint(i, market), market.pool) else i
  }

  function Run(events: seq<Event>, cfg: Settings): Index {
    if events == [] then Start(cfg) else Observe(Run(events[..|events| - 1], cfg), events[|events| - 1], cfg)
  }

  // ----- Invariants -----

  ghost predicate Lists(order: seq<Address>, keys: set<Address>) {
    Distinct(order) && EMPTY !in order && forall m :: m in order <==> m in keys
  }

  /** The two pool maps are exact inverses, over tracked mints only. */
  ghost predicate Inverse(mintByPool: map<Address, Address>, poolsByMint: map<Address, set<Address>>, tracked: set<Address>) {
    && (forall p :: p in mintByPool ==> mintByPool[p] in poolsByMint && p in poolsByMint[mintByPool[p]])
    && (forall m :: m in poolsByMint ==> m in tracked)
    && (forall m, p :: m in poolsByMint && p in poolsByMint[m] ==> p in mintByPool && mintByPool[p] == m)
  }

  ghost predicate Within(accounts: set<Address>, pinned: set<Address>, mints: set<Address>, pools: set<Address>) {
    pinned <= accounts <= pinned + mints + pools
  }

  ghost predicate Sound(i: Index, cfg: Settings) {
    && Lists(i.order, i.developers.Keys)
    && !Overfull(i.order, cfg)
    && Inverse(i.mintByPool, i.poolsByMint, i.developers.Keys)
    && Within(i.accounts, cfg.pinned, i.developers.Keys, i.mintByPool.Keys)
  }
}
