/**
 Exactly when the order of the transfers does not matter. A mint spreads from a seed through accounts
 that are none, and an account keeps the first that arrives.
 */
module MintOrders {
  import opened MintPropagation

  // A path from a seed with mint `m` to `b`, through accounts that are no seeds.
  ghost predicate IsRoute(seeds: map<Account, Mint>, ts: seq<Transfer>, path: seq<Account>, b: Account, m: Mint) {
    && IsPath(ts, path) && path[0] in seeds && seeds[path[0]] == m && path[|path| - 1] == b
    && forall i :: 0 < i < |path| ==> path[i] !in seeds
  }

  /** The mint `m` may arrive at `b`. */
  ghost predicate Reaches(seeds: map<Account, Mint>, ts: seq<Transfer>, b: Account, m: Mint) {
    exists path :: IsRoute(seeds, ts, path, b, m)
  }

  /** At no account but the default one may two different mints arrive. */
  ghost predicate OneArrives(seeds: map<Account, Mint>, ts: seq<Transfer>) {
    forall b, m, m' :: b != ZERO && Reaches(seeds, ts, b, m) && Reaches(seeds, ts, b, m') ==> m == m'
  }

  // ----- What is learnt has arrived -----

  ghost predicate Traced(seeds: map<Account, Mint>, ts: seq<Transfer>, mints: map<Account, Mint>) {
    forall b {:trigger Reaches(seeds, ts, b, mints[b])} :: b in mints ==> Reaches(seeds, ts, b, mints[b])
  }

  lemma TracedAt(seeds: map<Account, Mint>, ts: seq<Transfer>, mints: map<Account, Mint>, b: Account)
    requires Traced(seeds, ts, mints) && b in mints
    ensures Reaches(seeds, ts, b, mints[b])
  {
  }

  lemma SeedReaches(seeds: map<Account, Mint>, ts: seq<Transfer>, a: Account)
    requires a in seeds
    ensures Reaches(seeds, ts, a, seeds[a])
  {
    assert IsRoute(seeds, ts, [a], a, seeds[a]);
  }

  lemma ReachesNext(seeds: map<Account, Mint>, ts: seq<Transfer>, from: Account, to: Account, m: Mint)
    requires Reaches(seeds, ts, from, m) && Adjacent(ts, from, to) && to !in seeds
    ensures Reaches(seeds, ts, to, m)
  {
    var path :| IsRoute(seeds, ts, path, from, m);
    var longer := path + [to];
    forall i | 0 < i < |longer|
      ensures StepAt(ts, longer, i)
    {
      assert i < |path| ==> StepAt(ts, path, i);
    }
    assert IsRoute(seeds, ts, longer, to, m);
  }

  lemma LearnedTraced(seeds: map<Account, Mint>, ts: seq<Transfer>, known: map<Account, Mint>, from: Account, to: Account)
    requires Extends(seeds, known) && Traced(seeds, ts, known) && from in known && to !in known && Adjacent(ts, from, to)
    ensures Traced(seeds, ts, known[to := known[from]])
  {
    TracedAt(seeds, ts, known, from);
    ReachesNext(seeds, ts, from, to, known[from]);
    var next := known[to := known[from]];
    forall b | b in next
      ensures Reaches(seeds, ts, b, next[b])
    {
      if b != to {
        TracedAt(seeds, ts, known, b);
      }
    }
  }

  lemma {:induction false} PassTraced(seeds: map<Account, Mint>, ts: seq<Transfer>, known: map<Account, Mint>, n: nat)
    requires n <= |ts| && Extends(seeds, known) && Traced(seeds, ts, known)
    ensures Extends(seeds, Pass(known, ts[..n])) && Traced(seeds, ts, Pass(known, ts[..n]))
  {
    if n > 0 {
      var before, t := Pass(known, ts[..n - 1]), ts[n - 1];
      PassTraced(seeds, ts, known, n - 1);
      PassNext(known, ts, n - 1);
      AdjacentBothWays(ts, n - 1);
      LearnedGrows(before, t);
      ExtendsTransitive(seeds, before, Learned(before, t));
      if t.source in before && t.destination !in before {
        LearnedTraced(seeds, ts, before, t.source, t.destination);
      } else if t.destination in before && t.source !in before {
        LearnedTraced(seeds, ts, before, t.destination, t.source);
      }
    }
    assert ts[..0] == [];
  }

  lemma {:induction false} SpreadTraced(seeds: map<Account, Mint>, ts: seq<Transfer>, known: map<Account, Mint>)
    requires Extends(seeds, known) && Traced(seeds, ts, known)
    ensures Traced(seeds, ts, Spread(known, ts))
    decreases |Unknown(ts, known)|
  {
    assert ts[..|ts|] == ts;
    PassTraced(seeds, ts, known, |ts|);
    if |Pass(known, ts)| != |known| {
      PassGrows(known, ts);
      RoundLearns(ts, known, Pass(known, ts));
      SpreadTraced(seeds, ts, Pass(known, ts));
    }
  }

  lemma SeedsAreTraced(seeds: map<Account, Mint>, ts: seq<Transfer>)
    ensures Traced(seeds, ts, seeds)
  {
    forall b | b in seeds
      ensures Reaches(seeds, ts, b, seeds[b])
    {
      SeedReaches(seeds, ts, b);
    }
  }

  /** What is inferred may have arrived; and where any mint may arrive, one is inferred. */
  lemma InferredExactly(seeds: map<Account, Mint>, ts: seq<Transfer>, b: Account)
    ensures b in Spread(seeds, ts) ==> Reaches(seeds, ts, b, Spread(seeds, ts)[b])
    ensures b in Spread(seeds, ts) <==> exists m :: Reaches(seeds, ts, b, m)
  {
    SeedsAreTraced(seeds, ts);
    SpreadTraced(seeds, ts, seeds);
    if b in Spread(seeds, ts) {
      TracedAt(seeds, ts, Spread(seeds, ts), b);
    }
    if m :| Reaches(seeds, ts, b, m) {
      ArrivedIsKnown(seeds, ts, b, m);
    }
  }

  lemma ArrivedIsKnown(seeds: map<Account, Mint>, ts: seq<Transfer>, b: Account, m: Mint)
    requires Reaches(seeds, ts, b, m)
    ensures b in Spread(seeds, ts)
  {
    var path :| IsRoute(seeds, ts, path, b, m);
    SeedsAreFounded(seeds, ts);
    SpreadIsSound(seeds, seeds, ts);
    ClosedAlongPath(ts, Spread(seeds, ts), path, |path| - 1);
  }

  // ----- A mint that may arrive does arrive, in some order -----

  lemma {:induction false} PassBoth(known: map<Account, Mint>, a: seq<Transfer>, b: seq<Transfer>)
    ensures Pass(known, a + b) == Pass(Pass(known, a), b)
  {
    if b == [] {
      assert a + b == a;
    } else {
      PassBoth(known, a, b[..|b| - 1]);
      assert (a + b)[..|a + b| - 1] == a + b[..|b| - 1];
    }
  }

  // After the transfers in `done`, whatever was learnt is `m`, and both ends of each of them are known.
  ghost predicate OnlyLearnt(seeds: map<Account, Mint>, done: seq<Transfer>, m: Mint) {
    && (forall b :: b in Pass(seeds, done) && b !in seeds ==> Pass(seeds, done)[b] == m)
    && (forall i :: 0 <= i < |done| ==> done[i].source in Pass(seeds, done) && done[i].destination in Pass(seeds, done))
  }

  // A choice of transfers, and the others.
  ghost predicate Splits(ts: seq<Transfer>, done: seq<Transfer>, left: seq<Transfer>) {
    multiset(done) + multiset(left) == multiset(ts)
  }

  lemma TakeOut(ts: seq<Transfer>, done: seq<Transfer>, left: seq<Transfer>, t: Transfer) returns (rest: seq<Transfer>)
    requires Splits(ts, done, left) && t in ts && t !in done
    ensures Splits(ts, done + [t], rest)
  {
    assert t in multiset(ts) && t !in multiset(done);
    assert t in multiset(left);
    var i :| 0 <= i < |left| && left[i] == t;
    rest := left[..i] + left[i + 1..];
    assert left == left[..i] + [t] + left[i + 1..];
  }

  lemma OneMoreLearnt(seeds: map<Account, Mint>, done: seq<Transfer>, m: Mint, t: Transfer, from: Account, to: Account)
    requires OnlyLearnt(seeds, done, m) && Joins(t, from, to)
    requires from in Pass(seeds, done) && Pass(seeds, done)[from] == m && to !in Pass(seeds, done)
    ensures Pass(seeds, done + [t]) == Pass(seeds, done)[to := m] && OnlyLearnt(seeds, done + [t], m)
  {
    assert (done + [t])[..|done|] == done;
  }

  // The first `k` accounts of a route are brought to know its mint.
  ghost predicate Brought(seeds: map<Account, Mint>, done: seq<Transfer>, path: seq<Account>, k: nat) {
    k <= |path| && forall i :: 0 <= i < k ==> path[i] in Pass(seeds, done)
  }

  lemma {:induction false} Bring(seeds: map<Account, Mint>, ts: seq<Transfer>, path: seq<Account>, b: Account, m: Mint, k: nat)
    returns (done: seq<Transfer>, left: seq<Transfer>)
    requires IsRoute(seeds, ts, path, b, m) && 0 < k <= |path|
    ensures Splits(ts, done, left) && OnlyLearnt(seeds, done, m) && Brought(seeds, done, path, k)
  {
    if k == 1 {
      done, left := [], ts;
    } else {
      done, left := Bring(seeds, ts, path, b, m, k - 1);
      var from, to := path[k - 2], path[k - 1];
      if to !in Pass(seeds, done) {
        assert StepAt(ts, path, k - 1);
        var i :| 0 <= i < |ts| && Joins(ts[i], from, to);
        left := TakeOut(ts, done, left, ts[i]);
        KnownOnRoute(seeds, ts, path, b, m, done, k - 2);
        OneMoreLearnt(seeds, done, m, ts[i], from, to);
        done := done + [ts[i]];
      }
    }
  }

  lemma KnownOnRoute(seeds: map<Account, Mint>, ts: seq<Transfer>, path: seq<Account>, b: Account, m: Mint, done: seq<Transfer>, i: nat)
    requires IsRoute(seeds, ts, path, b, m) && OnlyLearnt(seeds, done, m) && i < |path| && path[i] in Pass(seeds, done)
    ensures Pass(seeds, done)[path[i]] == m
  {
    PassGrows(seeds, done);
  }

  lemma SpreadKeepsPass(known: map<Account, Mint>, ts: seq<Transfer>)
    ensures Extends(Pass(known, ts), Spread(known, ts))
  {
    if |Pass(known, ts)| != |known| {
      SpreadExtends(Pass(known, ts), ts);
    }
  }

  lemma {:induction false} SpreadExtends(known: map<Account, Mint>, ts: seq<Transfer>)
    ensures Extends(known, Spread(known, ts))
    decreases |Unknown(ts, known)|
  {
    PassGrows(known, ts);
    if |Pass(known, ts)| != |known| {
      RoundLearns(ts, known, Pass(known, ts));
      SpreadExtends(Pass(known, ts), ts);
      ExtendsTransitive(known, Pass(known, ts), Spread(Pass(known, ts), ts));
    }
  }

  /** Every mint that may arrive does, in some order of the transfers. */
  lemma SomeOrderBrings(seeds: map<Account, Mint>, ts: seq<Transfer>, b: Account, m: Mint) returns (us: seq<Transfer>)
    requires Reaches(seeds, ts, b, m)
    ensures multiset(us) == multiset(ts) && b in Spread(seeds, us) && Spread(seeds, us)[b] == m
  {
    var path :| IsRoute(seeds, ts, path, b, m);
    var done, left := Bring(seeds, ts, path, b, m, |path|);
    us := done + left;
    KnownOnRoute(seeds, ts, path, b, m, done, |path| - 1);
    PassBoth(seeds, done, left);
    PassGrows(Pass(seeds, done), left);
    SpreadKeepsPass(seeds, us);
  }

  // ----- Exactly -----

  lemma ReachesPermuted(seeds: map<Account, Mint>, ts: seq<Transfer>, us: seq<Transfer>, b: Account, m: Mint)
    requires multiset(ts) == multiset(us) && Reaches(seeds, ts, b, m)
    ensures Reaches(seeds, us, b, m)
  {
    var path :| IsRoute(seeds, ts, path, b, m);
    PermutedPath(ts, us, path);
    assert IsRoute(seeds, us, path, b, m);
  }

  // The mints of every order of the transfers, the default account removed.
  ghost predicate SameInEveryOrder(seeds: map<Account, Mint>, ts: seq<Transfer>) {
    forall us :: multiset(us) == multiset(ts) ==> Spread(seeds, us) - {ZERO} == Spread(seeds, ts) - {ZERO}
  }

  lemma SameAt(seeds: map<Account, Mint>, ts: seq<Transfer>, us: seq<Transfer>, b: Account)
    requires multiset(us) == multiset(ts) && OneArrives(seeds, ts) && b != ZERO && b in Spread(seeds, ts)
    ensures b in Spread(seeds, us) && Spread(seeds, us)[b] == Spread(seeds, ts)[b]
  {
    InferredExactly(seeds, ts, b);
    ReachesPermuted(seeds, ts, us, b, Spread(seeds, ts)[b]);
    InferredExactly(seeds, us, b);
    ReachesPermuted(seeds, us, ts, b, Spread(seeds, us)[b]);
  }

  lemma OneArrivesPermuted(seeds: map<Account, Mint>, ts: seq<Transfer>, us: seq<Transfer>)
    requires multiset(us) == multiset(ts) && OneArrives(seeds, ts)
    ensures OneArrives(seeds, us)
  {
    forall b, m, m' | b != ZERO && Reaches(seeds, us, b, m) && Reaches(seeds, us, b, m')
      ensures m == m'
    {
      ReachesPermuted(seeds, us, ts, b, m);
      ReachesPermuted(seeds, us, ts, b, m');
    }
  }

  lemma SameMints(seeds: map<Account, Mint>, ts: seq<Transfer>, us: seq<Transfer>)
    requires multiset(us) == multiset(ts) && OneArrives(seeds, ts)
    ensures Extends(Spread(seeds, ts) - {ZERO}, Spread(seeds, us) - {ZERO})
  {
    forall b | b in Spread(seeds, ts) - {ZERO}
      ensures b in Spread(seeds, us) - {ZERO} && (Spread(seeds, us) - {ZERO})[b] == (Spread(seeds, ts) - {ZERO})[b]
    {
      SameAt(seeds, ts, us, b);
    }
  }

  lemma TwoArriveDiffer(seeds: map<Account, Mint>, ts: seq<Transfer>, b: Account, m: Mint, m': Mint)
    requires b != ZERO && Reaches(seeds, ts, b, m) && Reaches(seeds, ts, b, m') && m != m'
    ensures !SameInEveryOrder(seeds, ts)
  {
    var us := SomeOrderBrings(seeds, ts, b, m);
    var vs := SomeOrderBrings(seeds, ts, b, m');
    assert (Spread(seeds, us) - {ZERO})[b] == m && (Spread(seeds, vs) - {ZERO})[b] == m';
  }

  /**
   For any seeds: every order of the transfers ends in the same mints if and only if at no account but the
   default one two different mints may arrive, each through accounts that are no seeds.
   */
  lemma OrderMattersExactly(seeds: map<Account, Mint>, ts: seq<Transfer>)
    ensures SameInEveryOrder(seeds, ts) <==> OneArrives(seeds, ts)
  {
    if OneArrives(seeds, ts) {
      forall us | multiset(us) == multiset(ts)
        ensures Spread(seeds, us) - {ZERO} == Spread(seeds, ts) - {ZERO}
      {
        OneArrivesPermuted(seeds, ts, us);
        SameMints(seeds, ts, us);
        SameMints(seeds, us, ts);
        ExtendsBothWays(Spread(seeds, ts) - {ZERO}, Spread(seeds, us) - {ZERO});
      }
    } else {
      var b, m, m' :| b != ZERO && Reaches(seeds, ts, b, m) && Reaches(seeds, ts, b, m') && m != m';
      TwoArriveDiffer(seeds, ts, b, m, m');
    }
  }
}
