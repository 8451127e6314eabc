/** The index as the example keeps it: maps and sets updated with every observation. */
module TradeIndex {
  import opened TradeIndexSpec
  import opened TradeIndexProofs

  class Tracker {
    const limit: int
    const pinned: set<Address>

    var devOrder: seq<Address>
    var devByMint: map<Address, Address>
    var mintByPool: map<Address, Address>
    var poolsByMint: map<Address, set<Address>>
    var accounts: set<Address>

    function Configured(): Settings {
      Settings(limit, pinned)
    }

    function State(): Index
      reads this
    {
      Index(devOrder, devByMint, mintByPool, poolsByMint, accounts)
    }

    ghost predicate Valid()
      reads this
    {
      Sound(State(), Configured())
    }

    constructor (limit: int, pinned: set<Address>)
      ensures Valid() && Configured() == Settings(limit, pinned) && State() == Start(Configured())
    {
      this.limit, this.pinned := limit, pinned;
      devOrder, devByMint, mintByPool, poolsByMint := [], map[], map[], map[];
      accounts := pinned;
    }

    method RemoveAccount(account: Address)
      modifies `accounts
      ensures accounts == old(accounts) - ({account} - pinned)
    {
      if account !in pinned {
        accounts := accounts - {account};
      }
    }

    // Forgets the mint that was refreshed longest ago, and its pools.
    method ForgetOldest()
      requires devOrder != [] && Consistent(State(), Configured())
      modifies this
      ensures State() == WithoutFirst(old(State()), Configured())
    {
      var oldest := devOrder[0];
      devOrder, devByMint := devOrder[1..], devByMint - {oldest};
      RemoveAccount(oldest);
      var pools := if oldest in poolsByMint then poolsByMint[oldest] else {};
      ForgetPools(pools);
      poolsByMint := poolsByMint - {oldest};
      assert accounts == old(accounts) - (({oldest} + pools) - pinned);
    }

    method ForgetPools(pools: set<Address>)
      modifies `mintByPool, `accounts
      ensures mintByPool == old(mintByPool) - pools && accounts == old(accounts) - (pools - pinned)
    {
      var rest := pools;
      while rest != {}
        invariant rest <= pools && mintByPool == old(mintByPool) - (pools - rest)
        invariant accounts == old(accounts) - ((pools - rest) - pinned)
        decreases |rest|
      {
        var pool :| pool in rest;
        mintByPool := mintByPool - {pool};
        RemoveAccount(pool);
        assert pools - (rest - {pool}) == (pools - rest) + {pool};
        rest := rest - {pool};
      }
    }

    // The answer tells whether the filters may have to change; without it, no account changed.
    method RememberDeveloper(mint: Address, creator: Address) returns (changed: bool)
      requires Valid() && mint != EMPTY
      modifies this
      ensures Valid() && State() == TradeIndexSpec.RememberDeveloper(old(State()), mint, creator, Configured())
      ensures !changed ==> accounts == old(accounts)
    {
      changed := mint !in accounts;
      devOrder := Refresh(devOrder, mint);
      devByMint := devByMint[mint := creator];
      accounts := accounts + {mint};
      assert State() == Insert(old(State()), mint, creator);
      InsertIsConsistent(old(State()), mint, creator, Configured());
      ShrinkIsSound(State(), Configured());
      assert !changed ==> accounts == old(accounts);
      while limit > 0 && |devOrder| > limit
        invariant Consistent(State(), Configured())
        invariant Shrink(State(), Configured()) == Shrink(Insert(old(State()), mint, creator), Configured())
        invariant !changed ==> accounts == old(accounts)
        decreases |devOrder|
      {
        if devOrder[0] == EMPTY {
          break;
        }
        WithoutFirstIsConsistent(State(), Configured());
        ForgetOldest();
        changed := true;
      }
    }

    method RememberPool(mint: Address, pool: Address) returns (changed: bool)
      requires Valid()
      modifies this
      ensures Valid() && State() == TradeIndexSpec.RememberPool(old(State()), mint, pool)
      ensures changed <==> accounts != old(accounts)
    {
      PoolIsSound(State(), mint, pool, Configured());
      if mint !in devByMint {
        return false;
      }
      Assign(mint, pool);
      changed := pool !in accounts;
      SetGrows(accounts, pool);
      if changed {
        accounts := accounts + {pool};
      }
    }

    // The pool leaves the mint that it had before, if any, and joins this one.
    method Assign(mint: Address, pool: Address)
      modifies `mintByPool, `poolsByMint
      ensures mintByPool == old(mintByPool)[pool := mint] && poolsByMint == MovePool(old(State()), mint, pool)
    {
      if pool in mintByPool {
        var previous := mintByPool[pool];
        if previous != EMPTY && previous != mint && previous in poolsByMint {
          poolsByMint := poolsByMint[previous := poolsByMint[previous] - {pool}];
        }
      }
      mintByPool := mintByPool[pool := mint];
      if mint !in poolsByMint {
        poolsByMint := poolsByMint[mint := {}];
      }
      poolsByMint := poolsByMint[mint := poolsByMint[mint] + {pool}];
    }

    static lemma SetGrows(s: set<Address>, x: Address)
      ensures s + {x} == s <==> x in s
    {
      assert x in s + {x};
    }

    // One event of the stream; the answer tells whether to update the filters.
    method Handle(e: Event) returns (changed: bool)
      requires Valid()
      modifies this
      ensures Valid() && State() == Observe(old(State()), e, Configured())
      ensures !changed ==> accounts == old(accounts)
    {
      changed := false;
      match e {
        case Created(mint, creator) =>
          if mint != EMPTY && creator != EMPTY {
            changed := RememberDeveloper(mint, creator);
          }
        case Migrated(mint, pool) =>
          if mint != EMPTY && pool != EMPTY && mint in devByMint {
            changed := RememberPool(mint, pool);
          }
        case Seen(market) =>
          var mint := TrackedMint(State(), market);
          if mint != EMPTY && market.pool != EMPTY {
            changed := RememberPool(mint, market.pool);
          }
      }
    }
  }
}
