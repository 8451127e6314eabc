/** Where the reorder puts every event: a create stands right before the first trade of its mint that came before it. */
module ReorderPlaces {
  import opened Prelude
  import opened EventPairing
  import opened CreateReorder

  // A create with an earlier trade of its mint belongs before the first such trade; all else where it is.
  datatype Rank = Rank(anchor: nat, after: bool, index: nat)

  function RankOf(evs: seq<Event>, i: nat): Rank
    requires i < |evs|
  {
    if IsCreate(evs[i]) && FirstTrade(evs, i, evs[i].mint).Some?
    then Rank(FirstTrade(evs, i, evs[i].mint).value, false, i) else Rank(i, true, i)
  }

  predicate Less(a: Rank, b: Rank) {
    || a.anchor < b.anchor
    || (a.anchor == b.anchor && !a.after && b.after)
    || (a.anchor == b.anchor && a.after == b.after && a.index < b.index)
  }

  // The first `n` places of the input, each once, in ascending rank.
  ghost predicate IsOrder(evs: seq<Event>, order: seq<nat>, n: nat)
    requires n <= |evs|
  {
    && (forall k :: 0 <= k < |order| ==> order[k] < n)
    && (forall i: nat :: i < n ==> i in order)
    && (forall j, k :: 0 <= j < k < |order| ==> Ranked(evs, order[j], order[k]))
  }

  predicate Ranked(evs: seq<Event>, i: nat, j: nat) {
    i < |evs| && j < |evs| && Less(RankOf(evs, i), RankOf(evs, j))
  }

  function Pick(evs: seq<Event>, order: seq<nat>): (r: seq<Event>)
    requires forall k :: 0 <= k < |order| ==> order[k] < |evs|
    ensures |r| == |order| && forall k :: 0 <= k < |r| ==> r[k] == evs[order[k]]
  {
    seq(|order|, k requires 0 <= k < |order| => evs[order[k]])
  }

  // `out` is the input in ascending rank.
  ghost predicate InPlace(evs: seq<Event>, order: seq<nat>, out: seq<Event>) {
    IsOrder(evs, order, |evs|) && out == Pick(evs, order)
  }

  // ----- One create -----

  function InsertAt(order: seq<nat>, q: nat, x: nat): seq<nat>
    requires q <= |order|
  {
    order[..q] + [x] + order[q..]
  }

  lemma InsertedAt(order: seq<nat>, q: nat, x: nat, k: nat)
    requires q <= |order| && k <= |order|
    ensures InsertAt(order, q, x)[k] == if k < q then order[k] else if k == q then x else order[k - 1]
  {
  }

  lemma InsertedMembers(order: seq<nat>, q: nat, x: nat, i: nat)
    requires q <= |order|
    ensures i in InsertAt(order, q, x) <==> i in order || i == x
  {
    assert order == order[..q] + order[q..];
  }

  lemma AnchorIsEarlier(evs: seq<Event>, i: nat)
    requires i < |evs|
    ensures RankOf(evs, i).anchor <= i && RankOf(evs, i).index == i
    ensures !RankOf(evs, i).after ==> RankOf(evs, i).anchor < i
  {
  }

  // Inserting keeps the order, if what comes before ranks below and what comes after ranks above.
  lemma InsertKeepsOrder(evs: seq<Event>, order: seq<nat>, q: nat, n: nat)
    requires n < |evs| && IsOrder(evs, order, n) && q <= |order|
    requires forall k :: 0 <= k < q ==> Ranked(evs, order[k], n)
    requires forall k :: q <= k < |order| ==> Ranked(evs, n, order[k])
    ensures IsOrder(evs, InsertAt(order, q, n), n + 1)
  {
    var longer := InsertAt(order, q, n);
    forall i: nat | i < n + 1
      ensures i in longer
    {
      InsertedMembers(order, q, n, i);
    }
    forall j, k | 0 <= j < k < |longer|
      ensures Ranked(evs, longer[j], longer[k])
    {
      InsertedAt(order, q, n, j);
      InsertedAt(order, q, n, k);
    }
  }

  lemma AppendKeepsOrder(evs: seq<Event>, order: seq<nat>, n: nat)
    requires n < |evs| && IsOrder(evs, order, n) && RankOf(evs, n).after
    ensures IsOrder(evs, order + [n], n + 1)
  {
    forall k | 0 <= k < |order|
      ensures Ranked(evs, order[k], n)
    {
      AnchorIsEarlier(evs, order[k]);
    }
    InsertKeepsOrder(evs, order, |order|, n);
    assert InsertAt(order, |order|, n) == order + [n];
  }

  // Before the first trade there is room for the create, and only there.
  lemma BelowFirst(evs: seq<Event>, y: nat, f: nat, n: nat)
    requires n < |evs| && y < n && f < n && y != f && Ranked(evs, y, f) && !IsCreate(evs[f])
    requires RankOf(evs, n) == Rank(f, false, n)
    ensures Ranked(evs, y, n)
  {
  }

  lemma AboveFirst(evs: seq<Event>, y: nat, f: nat, n: nat)
    requires n < |evs| && y < |evs| && f < n && (y == f || Ranked(evs, f, y)) && !IsCreate(evs[f])
    requires RankOf(evs, n) == Rank(f, false, n)
    ensures Ranked(evs, n, y)
  {
  }

  lemma TradeIsNoCreate(e: Event, mint: nat)
    requires IsTradeOf(e, mint)
    ensures !IsCreate(e)
  {
  }

  // The first trade of a mint in the order is the first in the input.
  lemma FirstStaysFirst(evs: seq<Event>, order: seq<nat>, n: nat, q: nat, mint: nat, j: nat)
    requires n <= |evs| && IsOrder(evs, order, n) && j < q < |order| && FirstTrade(evs, n, mint) == Some(order[q])
    ensures !IsTradeOf(evs[order[j]], mint)
  {
    assert Ranked(evs, order[j], order[q]);
    TradeIsNoCreate(evs[order[q]], mint);
    if IsTradeOf(evs[order[j]], mint) {
      TradeIsNoCreate(evs[order[j]], mint);
    }
  }

  // What the loop holds after the places up to `n`.
  ghost predicate Arranged(evs: seq<Event>, n: nat, order: seq<nat>) {
    && n <= |evs| && IsOrder(evs, order, n) && |order| == n
    && ReorderTo(evs, n) == Pick(evs, order) + evs[n..]
  }

  lemma FirstTradeIs(r: seq<Event>, n: nat, mint: nat, q: nat)
    requires q < n <= |r| && IsTradeOf(r[q], mint) && forall j :: 0 <= j < q ==> !IsTradeOf(r[j], mint)
    ensures FirstTrade(r, n, mint) == Some(q)
  {
  }

  lemma NoFirstTrade(r: seq<Event>, n: nat, mint: nat)
    requires n <= |r| && forall j :: 0 <= j < n ==> !IsTradeOf(r[j], mint)
    ensures FirstTrade(r, n, mint) == None
  {
  }

  // Where the first trade of the input stands now.
  lemma FirstNow(evs: seq<Event>, order: seq<nat>, n: nat, mint: nat, r: seq<Event>) returns (q: nat)
    requires n < |evs| && IsOrder(evs, order, n) && |order| == n && r == Pick(evs, order) + evs[n..]
    requires FirstTrade(evs, n, mint).Some?
    ensures q < n && FirstTrade(r, n, mint) == Some(q) && order[q] == FirstTrade(evs, n, mint).value
  {
    var f := FirstTrade(evs, n, mint).value;
    assert f in order;
    q :| 0 <= q < |order| && order[q] == f;
    forall j | 0 <= j < q
      ensures !IsTradeOf(r[j], mint)
    {
      FirstStaysFirst(evs, order, n, q, mint, j);
    }
    FirstTradeIs(r, n, mint, q);
  }

  lemma NoneNow(evs: seq<Event>, order: seq<nat>, n: nat, mint: nat, r: seq<Event>)
    requires n < |evs| && IsOrder(evs, order, n) && |order| == n && r == Pick(evs, order) + evs[n..]
    requires FirstTrade(evs, n, mint).None?
    ensures FirstTrade(r, n, mint).None?
  {
    forall j | 0 <= j < n
      ensures !IsTradeOf(r[j], mint)
    {
      assert r[j] == evs[order[j]];
    }
    NoFirstTrade(r, n, mint);
  }

  lemma MoveIsInsert(evs: seq<Event>, order: seq<nat>, n: nat, q: nat, r: seq<Event>)
    requires n < |evs| && |order| == n && q <= n && (forall k :: 0 <= k < n ==> order[k] < n) && r == Pick(evs, order) + evs[n..]
    ensures Move(r, n, q) == Pick(evs, InsertAt(order, q, n)) + evs[n + 1..]
  {
    var s := Pick(evs, InsertAt(order, q, n)) + evs[n + 1..];
    forall i | 0 <= i < |evs|
      ensures Move(r, n, q)[i] == s[i]
    {
      MoveAt(r, n, q, i);
      if i <= n {
        InsertedAt(order, q, n, i);
      }
    }
  }

  lemma AppendIsPick(evs: seq<Event>, order: seq<nat>, n: nat)
    requires n < |evs| && |order| == n && forall k :: 0 <= k < n ==> order[k] < n
    ensures Pick(evs, order) + evs[n..] == Pick(evs, order + [n]) + evs[n + 1..]
  {
  }

  lemma ArrangeMoved(evs: seq<Event>, n: nat, order: seq<nat>) returns (next: seq<nat>)
    requires n < |evs| && Arranged(evs, n, order) && !RankOf(evs, n).after && n >= 1
    ensures Arranged(evs, n + 1, next)
  {
    var r, f := ReorderTo(evs, n), RankOf(evs, n).anchor;
    assert r[n] == evs[n];
    var q := FirstNow(evs, order, n, evs[n].mint, r);
    TradeIsNoCreate(evs[f], evs[n].mint);
    forall k | 0 <= k < q
      ensures Ranked(evs, order[k], n)
    {
      assert Ranked(evs, order[k], order[q]);
      BelowFirst(evs, order[k], f, n);
    }
    forall k | q <= k < |order|
      ensures Ranked(evs, n, order[k])
    {
      assert k > q ==> Ranked(evs, order[q], order[k]);
      AboveFirst(evs, order[k], f, n);
    }
    next := InsertAt(order, q, n);
    InsertKeepsOrder(evs, order, q, n);
    MoveIsInsert(evs, order, n, q, r);
  }

  lemma ArrangeStayed(evs: seq<Event>, n: nat, order: seq<nat>) returns (next: seq<nat>)
    requires n < |evs| && Arranged(evs, n, order) && RankOf(evs, n).after && n >= 1
    ensures Arranged(evs, n + 1, next)
  {
    var r := ReorderTo(evs, n);
    assert r[n] == evs[n];
    if IsCreate(evs[n]) {
      NoneNow(evs, order, n, evs[n].mint, r);
    }
    next := order + [n];
    AppendKeepsOrder(evs, order, n);
    AppendIsPick(evs, order, n);
  }

  lemma ArrangeFirst(evs: seq<Event>)
    requires evs != []
    ensures Arranged(evs, 1, [0])
  {
    assert Pick(evs, [0]) == [evs[0]];
    assert [evs[0]] + evs[1..] == evs;
  }

  lemma {:induction false} Arrange(evs: seq<Event>, n: nat) returns (order: seq<nat>)
    requires n <= |evs|
    ensures Arranged(evs, n, order)
  {
    if n == 0 {
      order := [];
      assert Pick(evs, []) + evs[0..] == evs;
    } else if n == 1 {
      order := [0];
      ArrangeFirst(evs);
    } else {
      var before := Arrange(evs, n - 1);
      if RankOf(evs, n - 1).after {
        order := ArrangeStayed(evs, n - 1, before);
      } else {
        order := ArrangeMoved(evs, n - 1, before);
      }
    }
  }

  /** The reorder is the input in ascending rank. */
  lemma ReorderedInPlace(evs: seq<Event>) returns (order: seq<nat>)
    ensures InPlace(evs, order, Reordered(evs)) && |order| == |evs|
  {
    order := Arrange(evs, |evs|);
    assert Pick(evs, order) + evs[|evs|..] == Pick(evs, order);
  }

  // ----- Who passes whom -----

  // In the order, `i` stands before `j`.
  ghost predicate StandsBefore(order: seq<nat>, i: nat, j: nat) {
    exists k, l :: 0 <= k < l < |order| && order[k] == i && order[l] == j
  }

  lemma StandsByRank(evs: seq<Event>, order: seq<nat>, i: nat, j: nat)
    requires IsOrder(evs, order, |evs|) && i < |evs| && j < |evs|
    ensures StandsBefore(order, i, j) <==> Less(RankOf(evs, i), RankOf(evs, j))
  {
    assert i in order && j in order;
    var k :| 0 <= k < |order| && order[k] == i;
    var l :| 0 <= l < |order| && order[l] == j;
    if k > l {
      assert Ranked(evs, order[l], order[k]);
    } else if k < l {
      assert Ranked(evs, order[k], order[l]);
    }
  }

  /**
   An event that is no create and stands before a create still does afterwards if and only if no trade of
   that create's mint stands at or before it. So a create with no earlier trade of its mint passes nothing.
   */
  lemma CreatePassesExactly(evs: seq<Event>, order: seq<nat>, i: nat, c: nat)
    requires InPlace(evs, order, Reordered(evs)) && i < c < |evs| && !IsCreate(evs[i]) && IsCreate(evs[c])
    ensures StandsBefore(order, i, c) <==> forall t :: 0 <= t <= i ==> !IsTradeOf(evs[t], evs[c].mint)
  {
    StandsByRank(evs, order, i, c);
  }

  /** All else keeps its order: events that are no creates, and a create before such an event. */
  lemma OthersStay(evs: seq<Event>, order: seq<nat>, i: nat, j: nat)
    requires InPlace(evs, order, Reordered(evs)) && i < j < |evs| && !IsCreate(evs[j])
    ensures StandsBefore(order, i, j)
  {
    StandsByRank(evs, order, i, j);
    AnchorIsEarlier(evs, i);
  }

  /** Of two creates the earlier stays first, unless a trade of the later one's mint stands before where it goes. */
  lemma CreatesPassExactly(evs: seq<Event>, order: seq<nat>, c: nat, d: nat)
    requires InPlace(evs, order, Reordered(evs)) && c < d < |evs| && IsCreate(evs[c]) && IsCreate(evs[d])
    ensures StandsBefore(order, c, d) <==>
            forall t :: 0 <= t < RankOf(evs, c).anchor ==> !IsTradeOf(evs[t], evs[d].mint)
  {
    StandsByRank(evs, order, c, d);
    AnchorIsEarlier(evs, c);
    SameAnchorSameMint(evs, c, d);
  }

  // Two creates that belong before the same trade are of one mint.
  lemma SameAnchorSameMint(evs: seq<Event>, c: nat, d: nat)
    requires c < d < |evs| && IsCreate(evs[c]) && IsCreate(evs[d])
    ensures RankOf(evs, c).anchor == RankOf(evs, d).anchor ==> !RankOf(evs, c).after
  {
  }

  /** The loop over the creates. */
  method Reorder(evs: seq<Event>) returns (out: seq<Event>)
    ensures out == Reordered(evs)
    ensures multiset(out) == multiset(evs) && Others(out) == Others(evs) && CreatesFirst(out, |out|)
    ensures exists order :: |order| == |evs| && InPlace(evs, order, out)
  {
    out := evs;
    if |out| > 1 {
      for i := 1 to |out|
        invariant |out| == |evs| && out == ReorderTo(evs, i)
      {
        if IsCreate(out[i]) {
          var first := 0;
          while first < i && !IsTradeOf(out[first], out[i].mint)
            invariant 0 <= first <= i && forall j :: 0 <= j < first ==> !IsTradeOf(out[j], out[i].mint)
          {
            first := first + 1;
          }
          if first < i {
            out := out[..first] + [out[i]] + out[first..i] + out[i + 1..];
          }
        }
      }
    }
    ReorderKeeps(evs);
  }

  lemma ReorderKeeps(evs: seq<Event>)
    ensures var out := Reordered(evs);
            && multiset(out) == multiset(evs) && Others(out) == Others(evs) && CreatesFirst(out, |out|)
            && exists order :: |order| == |evs| && InPlace(evs, order, out)
  {
    ReorderIsRight(evs);
    var _ := ReorderedInPlace(evs);
  }
}
