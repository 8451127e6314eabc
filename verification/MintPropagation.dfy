/** Mints of token accounts, inferred across plain transfers until nothing more is learnt. */
module MintPropagation {
  type Account = nat
  type Mint = nat

  // The default account, which is no account at all.
  const ZERO: Account := 0

  // A plain transfer shows that two accounts hold the same mint, but not which.
  datatype Transfer = Transfer(source: Account, destination: Account)

  predicate Joins(t: Transfer, a: Account, b: Account) {
    (t.source == a && t.destination == b) || (t.source == b && t.destination == a)
  }

  predicate Adjacent(ts: seq<Transfer>, a: Account, b: Account) {
    exists i :: 0 <= i < |ts| && Joins(ts[i], a, b)
  }

  predicate StepAt(ts: seq<Transfer>, path: seq<Account>, i: nat) {
    0 < i < |path| && Adjacent(ts, path[i - 1], path[i])
  }

  ghost predicate IsPath(ts: seq<Transfer>, path: seq<Account>) {
    path != [] && forall i :: 0 < i < |path| ==> StepAt(ts, path, i)
  }

  /** Two accounts are connected if a chain of transfers links them. */
  ghost predicate Connected(ts: seq<Transfer>, a: Account, b: Account) {
    exists path :: IsPath(ts, path) && path[0] == a && path[|path| - 1] == b
  }

  /** The component of `b` carries the mint `m`: some seed with that mint is connected to `b`. */
  ghost predicate Carries(seeds: map<Account, Mint>, ts: seq<Transfer>, b: Account, m: Mint) {
    exists a :: a in seeds && seeds[a] == m && Connected(ts, a, b)
  }

  /** Each connected component carries at most one seed mint. */
  ghost predicate OneMintEach(seeds: map<Account, Mint>, ts: seq<Transfer>) {
    forall b, m, m' :: Carries(seeds, ts, b, m) && Carries(seeds, ts, b, m') ==> m == m'
  }

  // Whatever is known is carried by a seed of the same component.
  ghost predicate Founded(seeds: map<Account, Mint>, ts: seq<Transfer>, mints: map<Account, Mint>) {
    forall b {:trigger Carries(seeds, ts, b, mints[b])} :: b in mints ==> Carries(seeds, ts, b, mints[b])
  }

  ghost predicate Extends(seeds: map<Account, Mint>, mints: map<Account, Mint>) {
    forall a :: a in seeds ==> a in mints && mints[a] == seeds[a]
  }

  // No transfer links a known account to an unknown one.
  ghost predicate Closed(ts: seq<Transfer>, mints: map<Account, Mint>) {
    forall i :: 0 <= i < |ts| ==> (ts[i].source in mints <==> ts[i].destination in mints)
  }

  function Endpoints(ts: seq<Transfer>): set<Account> {
    if ts == [] then {} else Endpoints(ts[..|ts| - 1]) + {ts[|ts| - 1].source, ts[|ts| - 1].destination}
  }

  lemma {:induction false} EndpointsHold(ts: seq<Transfer>, i: nat)
    requires i < |ts|
    ensures ts[i].source in Endpoints(ts) && ts[i].destination in Endpoints(ts)
  {
    if i < |ts| - 1 {
      EndpointsHold(ts[..|ts| - 1], i);
    }
  }

  // The endpoints still without a mint.
  function Unknown(ts: seq<Transfer>, mints: map<Account, Mint>): set<Account> {
    Endpoints(ts) - mints.Keys
  }

  lemma SelfConnected(ts: seq<Transfer>, a: Account)
    ensures Connected(ts, a, a)
  {
    assert IsPath(ts, [a]);
  }

  lemma ConnectedNext(ts: seq<Transfer>, a: Account, b: Account, c: Account)
    requires Connected(ts, a, b) && Adjacent(ts, b, c)
    ensures Connected(ts, a, c)
  {
    var path :| IsPath(ts, path) && path[0] == a && path[|path| - 1] == b;
    var longer := path + [c];
    forall i | 0 < i < |longer|
      ensures StepAt(ts, longer, i)
    {
      assert i < |path| ==> StepAt(ts, path, i);
    }
    assert IsPath(ts, longer);
  }

  // Learning the mint of `to` from its neighbour `from`.
  lemma LearnFounded(seeds: map<Account, Mint>, ts: seq<Transfer>, mints: map<Account, Mint>, from: Account, to: Account)
    requires Founded(seeds, ts, mints) && from in mints && Adjacent(ts, from, to)
    ensures Founded(seeds, ts, mints[to := mints[from]])
  {
    assert Carries(seeds, ts, from, mints[from]);
    var a :| a in seeds && seeds[a] == mints[from] && Connected(ts, a, from);
    ConnectedNext(ts, a, from, to);
    assert Carries(seeds, ts, to, mints[from]);
  }

  lemma SeedsAreFounded(seeds: map<Account, Mint>, ts: seq<Transfer>)
    ensures Founded(seeds, ts, seeds)
  {
    forall b | b in seeds
      ensures Carries(seeds, ts, b, seeds[b])
    {
      SelfConnected(ts, b);
    }
  }

  lemma AdjacentBothWays(ts: seq<Transfer>, i: nat)
    requires i < |ts|
    ensures Adjacent(ts, ts[i].source, ts[i].destination) && Adjacent(ts, ts[i].destination, ts[i].source)
  {
    assert Joins(ts[i], ts[i].source, ts[i].destination) && Joins(ts[i], ts[i].destination, ts[i].source);
  }

  // ----- The loops as functions -----

  // What one transfer teaches.
  function Learned(known: map<Account, Mint>, t: Transfer): map<Account, Mint> {
    if t.source in known && t.destination !in known then known[t.destination := known[t.source]]
    else if t.destination in known && t.source !in known then known[t.source := known[t.destination]]
    else known
  }

  // One round over all transfers.
  function Pass(known: map<Account, Mint>, ts: seq<Transfer>): map<Account, Mint> {
    if ts == [] then known else Learned(Pass(known, ts[..|ts| - 1]), ts[|ts| - 1])
  }

  // Rounds until one teaches nothing.
  function Spread(known: map<Account, Mint>, ts: seq<Transfer>): map<Account, Mint>
    decreases |Unknown(ts, known)|
  {
    if |Pass(known, ts)| == |known| then Pass(known, ts)
    else
      PassGrows(known, ts);
      RoundLearns(ts, known, Pass(known, ts));
      Spread(Pass(known, ts), ts)
  }

  lemma LearnedGrows(known: map<Account, Mint>, t: Transfer)
    ensures Extends(known, Learned(known, t))
    ensures Learned(known, t).Keys <= known.Keys + {t.source, t.destination}
  {
  }

  lemma {:induction false} PassGrows(known: map<Account, Mint>, ts: seq<Transfer>)
    ensures Extends(known, Pass(known, ts)) && Pass(known, ts).Keys <= known.Keys + Endpoints(ts)
  {
    if ts != [] {
      var n := |ts| - 1;
      PassGrows(known, ts[..n]);
      LearnedGrows(Pass(known, ts[..n]), ts[n]);
      ExtendsTransitive(known, Pass(known, ts[..n]), Pass(known, ts));
    }
  }

  lemma PassNext(known: map<Account, Mint>, ts: seq<Transfer>, i: nat)
    requires i < |ts|
    ensures Pass(known, ts[..i + 1]) == Learned(Pass(known, ts[..i]), ts[i])
  {
    assert ts[..i + 1][..i] == ts[..i];
  }

  lemma LearnedFounded(seeds: map<Account, Mint>, ts: seq<Transfer>, known: map<Account, Mint>, i: nat)
    requires i < |ts| && Founded(seeds, ts, known)
    ensures Founded(seeds, ts, Learned(known, ts[i]))
  {
    var s, d := ts[i].source, ts[i].destination;
    AdjacentBothWays(ts, i);
    if s in known && d !in known {
      LearnFounded(seeds, ts, known, s, d);
    } else if d in known && s !in known {
      LearnFounded(seeds, ts, known, d, s);
    }
  }

  lemma {:induction false} PassFounded(seeds: map<Account, Mint>, ts: seq<Transfer>, known: map<Account, Mint>, n: nat)
    requires n <= |ts| && Founded(seeds, ts, known)
    ensures Founded(seeds, ts, Pass(known, ts[..n]))
  {
    if n > 0 {
      PassFounded(seeds, ts, known, n - 1);
      PassNext(known, ts, n - 1);
      LearnedFounded(seeds, ts, Pass(known, ts[..n - 1]), n - 1);
    }
  }

  lemma LearnedNothing(known: map<Account, Mint>, t: Transfer)
    requires Learned(known, t).Keys == known.Keys
    ensures Learned(known, t) == known && (t.source in known <==> t.destination in known)
  {
  }

  // A round that teaches nothing has nothing left to teach.
  lemma {:induction false} PassClosed(known: map<Account, Mint>, ts: seq<Transfer>, n: nat)
    requires n <= |ts| && Pass(known, ts[..n]).Keys == known.Keys
    ensures Pass(known, ts[..n]) == known && Closed(ts[..n], known)
  {
    if n > 0 {
      var before := Pass(known, ts[..n - 1]);
      PassNext(known, ts, n - 1);
      PassGrows(known, ts[..n - 1]);
      LearnedGrows(before, ts[n - 1]);
      ExtendsTransitive(known, before, Learned(before, ts[n - 1]));
      assert before.Keys == known.Keys;
      PassClosed(known, ts, n - 1);
      LearnedNothing(known, ts[n - 1]);
      ClosedNext(ts, known, n - 1);
    }
  }

  /** Rounds change no known mint, end closed, and teach only what the component carries. */
  lemma {:induction false} SpreadIsSound(seeds: map<Account, Mint>, known: map<Account, Mint>, ts: seq<Transfer>)
    requires Extends(seeds, known) && Founded(seeds, ts, known)
    ensures Extends(known, Spread(known, ts)) && Extends(seeds, Spread(known, ts))
    ensures Closed(ts, Spread(known, ts)) && Founded(seeds, ts, Spread(known, ts))
    decreases |Unknown(ts, known)|
  {
    var next := Pass(known, ts);
    assert ts[..|ts|] == ts;
    PassGrows(known, ts);
    PassFounded(seeds, ts, known, |ts|);
    ExtendsTransitive(seeds, known, next);
    SameSizeSameKeys(known, next);
    if |next| == |known| {
      PassClosed(known, ts, |ts|);
    } else {
      RoundLearns(ts, known, next);
      SpreadIsSound(seeds, next, ts);
      ExtendsTransitive(known, next, Spread(next, ts));
    }
  }

  // ----- The loops -----

  method Learn(known: map<Account, Mint>, t: Transfer) returns (mints: map<Account, Mint>)
    ensures mints == Learned(known, t)
  {
    mints := known;
    var s, d := t.source, t.destination;
    if s in known || d in known {
      var mint := if s in known then known[s] else known[d];
      if s !in mints {
        mints := mints[s := mint];
      }
      if d !in mints {
        mints := mints[d := mint];
      }
    }
  }

  // One round over all transfers. It learns nothing exactly if nothing is left to learn.
  method Round(seeds: map<Account, Mint>, ts: seq<Transfer>, before: map<Account, Mint>) returns (mints: map<Account, Mint>)
    requires Founded(seeds, ts, before)
    ensures mints == Pass(before, ts)
    ensures Extends(before, mints) && Founded(seeds, ts, mints)
    ensures mints.Keys <= before.Keys + Endpoints(ts)
    ensures |mints| == |before| ==> Closed(ts, mints)
  {
    mints := before;
    for i := 0 to |ts|
      invariant mints == Pass(before, ts[..i])
    {
      PassNext(before, ts, i);
      mints := Learn(mints, ts[i]);
    }
    assert ts[..|ts|] == ts;
    PassGrows(before, ts);
    PassFounded(seeds, ts, before, |ts|);
    SameSizeSameKeys(before, mints);
    if |mints| == |before| {
      PassClosed(before, ts, |ts|);
    }
  }

  lemma ExtendsTransitive(a: map<Account, Mint>, b: map<Account, Mint>, c: map<Account, Mint>)
    requires Extends(a, b) && Extends(b, c)
    ensures Extends(a, c) && a.Keys <= b.Keys <= c.Keys
  {
  }

  lemma ClosedNext(ts: seq<Transfer>, mints: map<Account, Mint>, i: nat)
    requires i < |ts| && Closed(ts[..i], mints) && (ts[i].source in mints <==> ts[i].destination in mints)
    ensures Closed(ts[..i + 1], mints)
  {
    assert ts[..i + 1] == ts[..i] + [ts[i]];
  }

  // A map that only grew, and not in size, is unchanged.
  lemma SameSizeSameKeys(a: map<Account, Mint>, b: map<Account, Mint>)
    requires Extends(a, b)
    ensures |a| <= |b| && (|a| == |b| ==> a == b)
  {
    assert |a| == |a.Keys| && |b| == |b.Keys|;
    assert b.Keys == a.Keys + (b.Keys - a.Keys);
  }

  /**
   The loop: it terminates, since every round but the last leaves fewer endpoints without a mint;
   it never changes a mint already known; and it ends closed under the transfers.
   */
  method Propagate(seeds: map<Account, Mint>, ts: seq<Transfer>) returns (mints: map<Account, Mint>)
    ensures mints == Spread(seeds, ts)
    ensures Extends(seeds, mints) && Closed(ts, mints) && Founded(seeds, ts, mints)
  {
    mints := seeds;
    SeedsAreFounded(seeds, ts);
    SpreadIsSound(seeds, seeds, ts);
    while true
      invariant Founded(seeds, ts, mints) && Spread(mints, ts) == Spread(seeds, ts)
      decreases |Unknown(ts, mints)|
    {
      var before := mints;
      mints := Round(seeds, ts, before);
      if |mints| == |before| {
        break;
      }
      RoundLearns(ts, before, mints);
    }
  }

  lemma RoundLearns(ts: seq<Transfer>, before: map<Account, Mint>, mints: map<Account, Mint>)
    requires Extends(before, mints) && mints.Keys <= before.Keys + Endpoints(ts) && |mints| != |before|
    ensures |Unknown(ts, mints)| < |Unknown(ts, before)|
  {
    assert mints.Keys != before.Keys by {
      assert |mints.Keys| == |mints| && |before.Keys| == |before|;
    }
    var x :| x in mints.Keys && x !in before.Keys;
    SmallerSet(Unknown(ts, mints), Unknown(ts, before), x);
  }

  lemma SmallerSet(a: set<Account>, b: set<Account>, x: Account)
    requires a <= b && x in b && x !in a
    ensures |a| < |b|
  {
    assert b == a + (b - a) && x in b - a;
  }

  // Everything that a component carries is known, except of the default account.
  ghost predicate Complete(seeds: map<Account, Mint>, ts: seq<Transfer>, mints: map<Account, Mint>) {
    forall b, m :: Carries(seeds, ts, b, m) && b != ZERO ==> b in mints && mints[b] == m
  }

  lemma FoundedWithout(seeds: map<Account, Mint>, ts: seq<Transfer>, all: map<Account, Mint>)
    requires Founded(seeds, ts, all)
    ensures Founded(seeds, ts, all - {ZERO})
  {
    forall b | b in all - {ZERO}
      ensures Carries(seeds, ts, b, (all - {ZERO})[b])
    {
      FoundedAt(seeds, ts, all, b);
    }
  }

  lemma CompleteWithout(seeds: map<Account, Mint>, ts: seq<Transfer>, all: map<Account, Mint>)
    requires Extends(seeds, all) && Closed(ts, all) && Founded(seeds, ts, all) && OneMintEach(seeds, ts)
    ensures Complete(seeds, ts, all - {ZERO})
  {
    forall b, m | Carries(seeds, ts, b, m) && b != ZERO
      ensures b in all - {ZERO} && (all - {ZERO})[b] == m
    {
      CarriedIsIts(seeds, ts, all, b, m);
    }
  }

  /** The inferred mints, the default account removed last. */
  method InferMints(seeds: map<Account, Mint>, ts: seq<Transfer>) returns (mints: map<Account, Mint>)
    ensures forall a :: a in seeds && a != ZERO ==> a in mints && mints[a] == seeds[a]
    ensures ZERO !in mints && Founded(seeds, ts, mints)
    ensures OneMintEach(seeds, ts) ==> Complete(seeds, ts, mints)
    ensures mints == Spread(seeds, ts) - {ZERO}
  {
    var all := Propagate(seeds, ts);
    mints := all - {ZERO};
    FoundedWithout(seeds, ts, all);
    if OneMintEach(seeds, ts) {
      CompleteWithout(seeds, ts, all);
    }
  }

  lemma {:induction false} ClosedAlongPath(ts: seq<Transfer>, mints: map<Account, Mint>, path: seq<Account>, k: nat)
    requires Closed(ts, mints) && IsPath(ts, path) && path[0] in mints && k < |path|
    ensures path[k] in mints
  {
    if k > 0 {
      ClosedAlongPath(ts, mints, path, k - 1);
      assert StepAt(ts, path, k);
    }
  }

  lemma ConnectedIsKnown(ts: seq<Transfer>, mints: map<Account, Mint>, a: Account, b: Account)
    requires Closed(ts, mints) && Connected(ts, a, b) && a in mints
    ensures b in mints
  {
    var path :| IsPath(ts, path) && path[0] == a && path[|path| - 1] == b;
    ClosedAlongPath(ts, mints, path, |path| - 1);
  }

  lemma CarriedIsKnown(seeds: map<Account, Mint>, ts: seq<Transfer>, mints: map<Account, Mint>, b: Account, m: Mint)
    requires Extends(seeds, mints) && Closed(ts, mints) && Carries(seeds, ts, b, m)
    ensures b in mints
  {
    var a :| a in seeds && seeds[a] == m && Connected(ts, a, b);
    ConnectedIsKnown(ts, mints, a, b);
  }

  lemma FoundedAt(seeds: map<Account, Mint>, ts: seq<Transfer>, mints: map<Account, Mint>, b: Account)
    requires Founded(seeds, ts, mints) && b in mints
    ensures Carries(seeds, ts, b, mints[b])
  {
  }

  lemma OneMintAt(seeds: map<Account, Mint>, ts: seq<Transfer>, b: Account, m: Mint, m': Mint)
    requires OneMintEach(seeds, ts) && Carries(seeds, ts, b, m) && Carries(seeds, ts, b, m')
    ensures m == m'
  {
  }

  lemma CarriedIsIts(seeds: map<Account, Mint>, ts: seq<Transfer>, mints: map<Account, Mint>, b: Account, m: Mint)
    requires Extends(seeds, mints) && Closed(ts, mints) && Founded(seeds, ts, mints) && OneMintEach(seeds, ts)
    requires Carries(seeds, ts, b, m)
    ensures b in mints && mints[b] == m
  {
    CarriedIsKnown(seeds, ts, mints, b, m);
    FoundedAt(seeds, ts, mints, b);
    OneMintAt(seeds, ts, b, m, mints[b]);
  }

  /**
   Where every component carries one seed mint at most, a closed outcome is determined by the
   components alone: an account has exactly the mint that its component carries.
   */
  lemma ClosedIsComplete(seeds: map<Account, Mint>, ts: seq<Transfer>, mints: map<Account, Mint>, b: Account, m: Mint)
    requires Extends(seeds, mints) && Closed(ts, mints) && Founded(seeds, ts, mints) && OneMintEach(seeds, ts)
    ensures (b in mints && mints[b] == m) <==> Carries(seeds, ts, b, m)
  {
    if b in mints {
      FoundedAt(seeds, ts, mints, b);
    }
    if Carries(seeds, ts, b, m) {
      CarriedIsIts(seeds, ts, mints, b, m);
    }
  }

  /** Two orders of the same transfers end in the same mints. */
  lemma OrderDoesNotMatter(seeds: map<Account, Mint>, ts: seq<Transfer>, us: seq<Transfer>,
                           mints: map<Account, Mint>, mints': map<Account, Mint>)
    requires multiset(ts) == multiset(us) && OneMintEach(seeds, ts)
    requires Extends(seeds, mints) && Closed(ts, mints) && Founded(seeds, ts, mints)
    requires Extends(seeds, mints') && Closed(us, mints') && Founded(seeds, us, mints')
    ensures mints == mints'
  {
    PermutedMints(seeds, ts, us, mints, mints');
    PermutedOneMint(seeds, ts, us);
    PermutedMints(seeds, us, ts, mints', mints);
    ExtendsBothWays(mints, mints');
  }

  lemma ExtendsBothWays(a: map<Account, Mint>, b: map<Account, Mint>)
    requires Extends(a, b) && Extends(b, a)
    ensures a == b
  {
    assert forall x :: x in a <==> x in b;
  }

  lemma PermutedOneMint(seeds: map<Account, Mint>, ts: seq<Transfer>, us: seq<Transfer>)
    requires multiset(ts) == multiset(us) && OneMintEach(seeds, ts)
    ensures OneMintEach(seeds, us)
  {
    forall b, m, m' | Carries(seeds, us, b, m) && Carries(seeds, us, b, m')
      ensures m == m'
    {
      PermutedCarries(seeds, us, ts, b, m);
      PermutedCarries(seeds, us, ts, b, m');
    }
  }

  // Whatever one order teaches, the other teaches too.
  lemma PermutedMints(seeds: map<Account, Mint>, ts: seq<Transfer>, us: seq<Transfer>,
                      mints: map<Account, Mint>, mints': map<Account, Mint>)
    requires multiset(ts) == multiset(us) && OneMintEach(seeds, ts)
    requires Founded(seeds, ts, mints)
    requires Extends(seeds, mints') && Closed(us, mints') && Founded(seeds, us, mints')
    ensures Extends(mints, mints')
  {
    PermutedOneMint(seeds, ts, us);
    forall b | b in mints
      ensures b in mints' && mints'[b] == mints[b]
    {
      FoundedAt(seeds, ts, mints, b);
      PermutedCarries(seeds, ts, us, b, mints[b]);
      CarriedIsIts(seeds, us, mints', b, mints[b]);
    }
  }

  lemma PermutedCarries(seeds: map<Account, Mint>, ts: seq<Transfer>, us: seq<Transfer>, b: Account, m: Mint)
    requires multiset(ts) == multiset(us) && Carries(seeds, ts, b, m)
    ensures Carries(seeds, us, b, m)
  {
    var a :| a in seeds && seeds[a] == m && Connected(ts, a, b);
    PermutedConnects(ts, us, a, b);
  }

  lemma PermutedPath(ts: seq<Transfer>, us: seq<Transfer>, path: seq<Account>)
    requires multiset(ts) == multiset(us) && IsPath(ts, path)
    ensures IsPath(us, path)
  {
    forall i | 0 < i < |path|
      ensures StepAt(us, path, i)
    {
      assert StepAt(ts, path, i);
      var k :| 0 <= k < |ts| && Joins(ts[k], path[i - 1], path[i]);
      assert ts[k] in multiset(us);
      var j :| 0 <= j < |us| && us[j] == ts[k];
      assert Joins(us[j], path[i - 1], path[i]);
    }
  }

  lemma PermutedConnects(ts: seq<Transfer>, us: seq<Transfer>, a: Account, b: Account)
    requires multiset(ts) == multiset(us)
    ensures Connected(ts, a, b) ==> Connected(us, a, b)
  {
    if path :| IsPath(ts, path) && path[0] == a && path[|path| - 1] == b {
      PermutedPath(ts, us, path);
    }
  }
}
