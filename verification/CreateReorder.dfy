/** The last two passes over the paired events: creates move before their trades, old swaps give way to current ones. */
module CreateReorder {
  import opened Prelude
  import opened EventPairing

  // ----- Creates before trades -----

  predicate IsCreate(e: Event) {
    (e.kind.PumpCreate? || e.kind.PumpCreateV2?) && e.mint != DEFAULT_KEY
  }

  predicate IsTradeOf(e: Event, mint: nat) {
    e.kind.PumpTrade? && e.mint == mint
  }

  // The first trade of a mint before place `i`.
  function FirstTrade(evs: seq<Event>, i: nat, mint: nat): (r: Option<nat>)
    requires i <= |evs|
    ensures r.Some? ==> r.value < i && IsTradeOf(evs[r.value], mint) && forall j :: 0 <= j < r.value ==> !IsTradeOf(evs[j], mint)
    ensures r.None? ==> forall j :: 0 <= j < i ==> !IsTradeOf(evs[j], mint)
  {
    if i == 0 then None
    else
      var before := FirstTrade(evs, i - 1, mint);
      if before.Some? then before else if IsTradeOf(evs[i - 1], mint) then Some(i - 1) else None
  }

  function Move(evs: seq<Event>, from: nat, to: nat): seq<Event>
    requires to <= from < |evs|
  {
    evs[..to] + [evs[from]] + evs[to..from] + evs[from + 1..]
  }

  function ReorderAt(evs: seq<Event>, i: nat): (r: seq<Event>)
    requires i < |evs|
    ensures |r| == |evs|
  {
    if !IsCreate(evs[i]) then evs
    else match FirstTrade(evs, i, evs[i].mint)
      case Some(first) => Move(evs, i, first)
      case None => evs
  }

  // After the places up to `n` have been visited.
  function ReorderTo(evs: seq<Event>, n: nat): (r: seq<Event>)
    requires n <= |evs|
    ensures |r| == |evs|
  {
    if n <= 1 then evs else ReorderAt(ReorderTo(evs, n - 1), n - 1)
  }

  function Reordered(evs: seq<Event>): seq<Event> {
    ReorderTo(evs, |evs|)
  }

  function NoCreate(): Event -> bool {
    e => !IsCreate(e)
  }

  function Others(evs: seq<Event>): seq<Event> {
    Filter(evs, NoCreate())
  }

  lemma FilterFour(a: seq<Event>, b: seq<Event>, c: seq<Event>, d: seq<Event>, keep: Event -> bool)
    ensures Filter(a + b + c + d, keep) == Filter(a, keep) + Filter(b, keep) + Filter(c, keep) + Filter(d, keep)
  {
    FilterConcat(a + b + c, d, keep);
    FilterConcat(a + b, c, keep);
    FilterConcat(a, b, keep);
  }

  lemma NothingBetween(a: seq<Event>, m: seq<Event>, z: seq<Event>)
    ensures a + [] + m + z == a + m + [] + z
  {
  }

  lemma SwapKeepsOthers(a: seq<Event>, m: seq<Event>, e: Event, z: seq<Event>)
    requires IsCreate(e)
    ensures Others(a + [e] + m + z) == Others(a + m + [e] + z)
  {
    FilterOne(e, NoCreate());
    FilterFour(a, [e], m, z, NoCreate());
    FilterFour(a, m, [e], z, NoCreate());
    NothingBetween(Others(a), Others(m), Others(z));
  }

  lemma SwapKeepsAll(a: seq<Event>, m: seq<Event>, e: Event, z: seq<Event>)
    ensures multiset(a + [e] + m + z) == multiset(a + m + [e] + z)
  {
  }

  lemma MoveKeepsOthers(evs: seq<Event>, from: nat, to: nat)
    requires to <= from < |evs| && IsCreate(evs[from])
    ensures Others(Move(evs, from, to)) == Others(evs)
    ensures multiset(Move(evs, from, to)) == multiset(evs)
  {
    var a, m, z := evs[..to], evs[to..from], evs[from + 1..];
    SwapKeepsOthers(a, m, evs[from], z);
    SwapKeepsAll(a, m, evs[from], z);
    Cut(evs, from, to);
  }

  lemma Cut(evs: seq<Event>, from: nat, to: nat)
    requires to <= from < |evs|
    ensures evs == evs[..to] + evs[to..from] + [evs[from]] + evs[from + 1..]
  {
  }

  lemma ReorderAtKeepsEvents(evs: seq<Event>, i: nat)
    requires i < |evs|
    ensures multiset(ReorderAt(evs, i)) == multiset(evs) && Others(ReorderAt(evs, i)) == Others(evs)
  {
    if IsCreate(evs[i]) && FirstTrade(evs, i, evs[i].mint).Some? {
      MoveKeepsOthers(evs, i, FirstTrade(evs, i, evs[i].mint).value);
    }
  }

  /** The reorder loses nothing, and events that are not creates keep their order. */
  lemma {:induction false} ReorderKeepsEvents(evs: seq<Event>, n: nat)
    requires n <= |evs|
    ensures multiset(ReorderTo(evs, n)) == multiset(evs) && Others(ReorderTo(evs, n)) == Others(evs)
  {
    if n > 1 {
      ReorderKeepsEvents(evs, n - 1);
      ReorderAtKeepsEvents(ReorderTo(evs, n - 1), n - 1);
    }
  }

  // No create among the first `n` comes after a trade of its mint.
  ghost predicate CreatesFirst(evs: seq<Event>, n: nat)
    requires n <= |evs|
  {
    forall t, c :: 0 <= t < c < n && IsCreate(evs[c]) ==> !IsTradeOf(evs[t], evs[c].mint)
  }

  lemma MoveAt(evs: seq<Event>, from: nat, to: nat, i: nat)
    requires to <= from < |evs| && i < |evs|
    ensures Move(evs, from, to)[i] == evs[if i < to || i > from then i else if i == to then from else i - 1]
  {
  }

  lemma ReorderAtPutsFirst(evs: seq<Event>, i: nat)
    requires i < |evs| && CreatesFirst(evs, i)
    ensures CreatesFirst(ReorderAt(evs, i), i + 1)
  {
    if IsCreate(evs[i]) && FirstTrade(evs, i, evs[i].mint).Some? {
      var first := FirstTrade(evs, i, evs[i].mint).value;
      var moved := Move(evs, i, first);
      forall t, c | 0 <= t < c < i + 1 && IsCreate(moved[c])
        ensures !IsTradeOf(moved[t], moved[c].mint)
      {
        MoveAt(evs, i, first, t);
        MoveAt(evs, i, first, c);
      }
    }
  }

  lemma {:induction false} ReorderPutsFirst(evs: seq<Event>, n: nat)
    requires n <= |evs|
    ensures CreatesFirst(ReorderTo(evs, n), n)
  {
    if n > 1 {
      ReorderPutsFirst(evs, n - 1);
      ReorderAtPutsFirst(ReorderTo(evs, n - 1), n - 1);
    }
  }

  /** The reorder is a permutation, keeps the order of all that is no create, and puts creates first. */
  lemma ReorderIsRight(evs: seq<Event>)
    ensures var r := Reordered(evs);
            multiset(r) == multiset(evs) && Others(r) == Others(evs) && CreatesFirst(r, |r|)
  {
    ReorderKeepsEvents(evs, |evs|);
    ReorderPutsFirst(evs, |evs|);
  }

  // ----- Old and current DBC swaps -----

  predicate IsDbc(e: Event, key: seq<nat>, current: bool) {
    e.kind.DbcSwap? && e.identity == key && (e.kind.version == 2) == current
  }

  function CountDbc(evs: seq<Event>, key: seq<nat>, current: bool): nat {
    if evs == [] then 0
    else CountDbc(evs[..|evs| - 1], key, current) + (if IsDbc(evs[|evs| - 1], key, current) then 1 else 0)
  }

  // The place of the k-th old or current swap of a key.
  function KthDbc(evs: seq<Event>, key: seq<nat>, current: bool, k: nat): (i: nat)
    requires k < CountDbc(evs, key, current)
    ensures i < |evs| && IsDbc(evs[i], key, current)
  {
    var n := |evs| - 1;
    if IsDbc(evs[n], key, current) && CountDbc(evs[..n], key, current) == k then n else KthDbc(evs[..n], key, current, k)
  }

  predicate Matched(evs: seq<Event>, e: Event) {
    e.kind.DbcSwap? && CountDbc(evs, e.identity, false) == CountDbc(evs, e.identity, true)
  }

  predicate IsOld(e: Event) {
    e.kind.DbcSwap? && e.kind.version != 2
  }

  predicate IsCurrent(e: Event) {
    e.kind.DbcSwap? && e.kind.version == 2
  }

  lemma {:induction false} CountDbcPrefix(evs: seq<Event>, i: nat, key: seq<nat>, current: bool)
    requires i < |evs|
    ensures CountDbc(evs[..i], key, current) + (if IsDbc(evs[i], key, current) then 1 else 0) <= CountDbc(evs, key, current)
  {
    var n := |evs| - 1;
    if i < n {
      CountDbcPrefix(evs[..n], i, key, current);
      assert evs[..n][..i] == evs[..i];
    }
  }

  // What becomes of place `i`: a matched current swap leaves, and the old swap of its number makes room for it.
  function Becomes(evs: seq<Event>, i: nat): seq<Event>
    requires i < |evs|
  {
    var e := evs[i];
    if !Matched(evs, e) then [e]
    else if IsCurrent(e) then []
    else
      CountDbcPrefix(evs, i, e.identity, false);
      [evs[KthDbc(evs, e.identity, true, CountDbc(evs[..i], e.identity, false))]]
  }

  function PreferTo(evs: seq<Event>, n: nat): seq<Event>
    requires n <= |evs|
  {
    if n == 0 then [] else PreferTo(evs, n - 1) + Becomes(evs, n - 1)
  }

  function Preferred(evs: seq<Event>): seq<Event> {
    PreferTo(evs, |evs|)
  }

  // Among the first `k` current swaps of a key, how many are `e`?
  function Copies(evs: seq<Event>, key: seq<nat>, e: Event, k: nat): nat
    requires k <= CountDbc(evs, key, true)
  {
    if k == 0 then 0 else Copies(evs, key, e, k - 1) + (if evs[KthDbc(evs, key, true, k - 1)] == e then 1 else 0)
  }

  lemma {:induction false} CopiesInPrefix(evs: seq<Event>, key: seq<nat>, e: Event, k: nat)
    requires evs != [] && k <= CountDbc(evs[..|evs| - 1], key, true)
    ensures Copies(evs, key, e, k) == Copies(evs[..|evs| - 1], key, e, k)
  {
    if k > 0 {
      CopiesInPrefix(evs, key, e, k - 1);
    }
  }

  function Times(evs: seq<Event>, e: Event): nat {
    if evs == [] then 0 else Times(evs[..|evs| - 1], e) + (if evs[|evs| - 1] == e then 1 else 0)
  }

  lemma {:induction false} TimesIsMultiplicity(evs: seq<Event>, e: Event)
    ensures Times(evs, e) == multiset(evs)[e]
  {
    if evs != [] {
      TimesIsMultiplicity(evs[..|evs| - 1], e);
      PrefixNext(evs, |evs| - 1);
      assert evs == evs[..|evs| - 1] + [evs[|evs| - 1]];
    }
  }

  lemma {:induction false} TimesConcat(a: seq<Event>, b: seq<Event>, e: Event)
    ensures Times(a + b, e) == Times(a, e) + Times(b, e)
  {
    if b == [] {
      assert a + b == a;
    } else {
      TimesConcat(a, b[..|b| - 1], e);
      assert (a + b)[..|a + b| - 1] == a + b[..|b| - 1];
    }
  }

  lemma TimesOne(x: Event, e: Event)
    ensures Times([x], e) == if x == e then 1 else 0
  {
    assert [x][..0] == [];
  }

  lemma {:induction false} CopiesAreAll(evs: seq<Event>, e: Event)
    requires IsCurrent(e)
    ensures Copies(evs, e.identity, e, CountDbc(evs, e.identity, true)) == Times(evs, e)
  {
    if evs != [] {
      CopiesAreAll(evs[..|evs| - 1], e);
      CopiesInPrefix(evs, e.identity, e, CountDbc(evs[..|evs| - 1], e.identity, true));
    }
  }

  // How often `e` is among what place `i` becomes.
  lemma BecomesCount(evs: seq<Event>, i: nat, e: Event)
    requires i < |evs|
    ensures !Matched(evs, e) ==> Times(Becomes(evs, i), e) == Times([evs[i]], e)
    ensures Matched(evs, e) && IsOld(e) ==> Times(Becomes(evs, i), e) == 0
    ensures Matched(evs, e) && IsCurrent(e) ==>
              var k := CountDbc(evs[..i], e.identity, false);
              Times(Becomes(evs, i), e) ==
              if IsDbc(evs[i], e.identity, false) && k < CountDbc(evs, e.identity, true) && evs[KthDbc(evs, e.identity, true, k)] == e
              then 1 else 0
  {
    CountDbcPrefix(evs, i, e.identity, false);
    TimesOne(evs[i], e);
    if Matched(evs, evs[i]) && !IsCurrent(evs[i]) {
      CountDbcPrefix(evs, i, evs[i].identity, false);
      TimesOne(evs[KthDbc(evs, evs[i].identity, true, CountDbc(evs[..i], evs[i].identity, false))], e);
    }
  }

  lemma CountDbcNext(evs: seq<Event>, i: nat, key: seq<nat>, current: bool)
    requires i < |evs|
    ensures CountDbc(evs[..i + 1], key, current) == CountDbc(evs[..i], key, current) + (if IsDbc(evs[i], key, current) then 1 else 0)
  {
    assert evs[..i + 1][..i] == evs[..i];
  }

  // There is a current swap for every old one passed so far.
  lemma OldsFit(evs: seq<Event>, e: Event, n: nat)
    requires n <= |evs| && IsCurrent(e) && Matched(evs, e)
    ensures CountDbc(evs[..n], e.identity, false) <= CountDbc(evs, e.identity, true)
  {
    if n < |evs| {
      CountDbcPrefix(evs, n, e.identity, false);
    } else {
      assert evs[..n] == evs;
    }
  }

  // Old swaps passed so far have been replaced by as many current ones, in order.
  ghost predicate ReplacedTo(evs: seq<Event>, e: Event, n: nat, k: nat)
    requires n <= |evs|
  {
    && k == CountDbc(evs[..n], e.identity, false) <= CountDbc(evs, e.identity, true)
    && Times(PreferTo(evs, n), e) == Copies(evs, e.identity, e, k)
  }

  lemma {:induction false} ReplacedSoFar(evs: seq<Event>, e: Event, n: nat)
    requires n <= |evs| && IsCurrent(e) && Matched(evs, e)
    ensures ReplacedTo(evs, e, n, CountDbc(evs[..n], e.identity, false))
  {
    if n > 0 {
      ReplacedSoFar(evs, e, n - 1);
      ReplacedNext(evs, e, n - 1);
    }
  }

  lemma ReplacedNext(evs: seq<Event>, e: Event, i: nat)
    requires i < |evs| && IsCurrent(e) && Matched(evs, e) && ReplacedTo(evs, e, i, CountDbc(evs[..i], e.identity, false))
    ensures ReplacedTo(evs, e, i + 1, CountDbc(evs[..i + 1], e.identity, false))
  {
    OldsFit(evs, e, i + 1);
    CountDbcNext(evs, i, e.identity, false);
    TimesConcat(PreferTo(evs, i), Becomes(evs, i), e);
    BecomesCount(evs, i, e);
  }

  lemma UntouchedNext(evs: seq<Event>, e: Event, i: nat)
    requires i < |evs| && !Matched(evs, e) && Times(PreferTo(evs, i), e) == Times(evs[..i], e)
    ensures Times(PreferTo(evs, i + 1), e) == Times(evs[..i + 1], e)
  {
    PrefixNext(evs, i);
    TimesConcat(PreferTo(evs, i), Becomes(evs, i), e);
    TimesConcat(evs[..i], [evs[i]], e);
    BecomesCount(evs, i, e);
  }

  lemma {:induction false} UntouchedSoFar(evs: seq<Event>, e: Event, n: nat)
    requires n <= |evs| && !Matched(evs, e)
    ensures Times(PreferTo(evs, n), e) == Times(evs[..n], e)
  {
    if n > 0 {
      UntouchedSoFar(evs, e, n - 1);
      UntouchedNext(evs, e, n - 1);
    }
  }

  lemma {:induction false} NoOldSoFar(evs: seq<Event>, e: Event, n: nat)
    requires n <= |evs| && Matched(evs, e) && IsOld(e)
    ensures Times(PreferTo(evs, n), e) == 0
  {
    if n > 0 {
      NoOldSoFar(evs, e, n - 1);
      NoOldNext(evs, e, n - 1);
    }
  }

  lemma NoOldNext(evs: seq<Event>, e: Event, i: nat)
    requires i < |evs| && Matched(evs, e) && IsOld(e) && Times(PreferTo(evs, i), e) == 0
    ensures Times(PreferTo(evs, i + 1), e) == 0
  {
    var before, piece := PreferTo(evs, i), Becomes(evs, i);
    BecomesCount(evs, i, e);
    TimesConcat(before, piece, e);
    assert PreferTo(evs, i + 1) == before + piece;
  }

  /**
   Where a key has as many old swaps as current ones, the old ones disappear and every current one
   stays; where the numbers differ, and for all other events, nothing changes.
   */
  lemma PreferReplacesOld(evs: seq<Event>, e: Event)
    ensures multiset(Preferred(evs))[e] == if Matched(evs, e) && IsOld(e) then 0 else multiset(evs)[e]
  {
    assert evs[..|evs|] == evs;
    TimesIsMultiplicity(Preferred(evs), e);
    TimesIsMultiplicity(evs, e);
    if !Matched(evs, e) {
      UntouchedSoFar(evs, e, |evs|);
    } else if IsOld(e) {
      NoOldSoFar(evs, e, |evs|);
    } else {
      ReplacedSoFar(evs, e, |evs|);
      CopiesAreAll(evs, e);
    }
  }

  function Outside(all: seq<Event>): Event -> bool {
    e => !Matched(all, e)
  }

  function Unmatched(evs: seq<Event>, all: seq<Event>): seq<Event> {
    Filter(evs, Outside(all))
  }

  lemma BecomesUnmatched(evs: seq<Event>, i: nat)
    requires i < |evs|
    ensures Unmatched(Becomes(evs, i), evs) == Unmatched([evs[i]], evs)
  {
    FilterOne(evs[i], Outside(evs));
    if Matched(evs, evs[i]) && !IsCurrent(evs[i]) {
      CountDbcPrefix(evs, i, evs[i].identity, false);
      FilterOne(evs[KthDbc(evs, evs[i].identity, true, CountDbc(evs[..i], evs[i].identity, false))], Outside(evs));
    }
  }

  /** All that is not part of a matched group keeps its order. */
  lemma {:induction false} PreferKeepsOrder(evs: seq<Event>, n: nat)
    requires n <= |evs|
    ensures Unmatched(PreferTo(evs, n), evs) == Unmatched(evs[..n], evs)
  {
    if n > 0 {
      var before, i := PreferTo(evs, n - 1), n - 1;
      PreferKeepsOrder(evs, i);
      BecomesUnmatched(evs, i);
      UnmatchedNext(before, Becomes(evs, i), evs[..i], evs[i], evs);
      PrefixNext(evs, i);
    }
  }

  lemma UnmatchedNext(before: seq<Event>, piece: seq<Event>, prefix: seq<Event>, e: Event, all: seq<Event>)
    requires Unmatched(before, all) == Unmatched(prefix, all) && Unmatched(piece, all) == Unmatched([e], all)
    ensures Unmatched(before + piece, all) == Unmatched(prefix + [e], all)
  {
    FilterConcat(before, piece, Outside(all));
    FilterConcat(prefix, [e], Outside(all));
  }

  lemma PrefixNext(evs: seq<Event>, i: nat)
    requires i < |evs|
    ensures evs[..i + 1] == evs[..i] + [evs[i]]
  {
  }
}
