/**
 Alignment of top-level invoke lines with a transaction's outer instructions. A log line is given
 by the program it invokes at depth 1, if any; a program may be unresolved.
 */
module LogOuterIndices {
  import opened Prelude

  type Id = nat

  // How often `p` is invoked.
  function Count(invocations: seq<Option<Id>>, p: Id): nat {
    if invocations == [] then 0
    else Count(invocations[..|invocations| - 1], p) + (if invocations[|invocations| - 1] == Some(p) then 1 else 0)
  }

  // The outer instructions of program `p`, in order.
  function Positions(programs: seq<Option<Id>>, p: Id): (r: seq<nat>)
    ensures forall k :: 0 <= k < |r| ==> r[k] < |programs| && programs[r[k]] == Some(p)
  {
    if programs == [] then []
    else
      var n := |programs| - 1;
      Positions(programs[..n], p) + (if programs[n] == Some(p) then [n] else [])
  }

  // The instruction of the k-th invocation of `p`; unknown (-1) unless every one of them is in the log.
  function IndexOfInvocation(invocations: seq<Option<Id>>, programs: seq<Option<Id>>, p: Id, k: nat): int {
    var positions := Positions(programs, p);
    if Count(invocations, p) == |positions| && k < |positions| then positions[k] else -1
  }

  // The index given to line `i`: that of the latest invocation up to it.
  function IndexAt(invocations: seq<Option<Id>>, programs: seq<Option<Id>>, i: nat): int
    requires i < |invocations|
  {
    match invocations[i]
    case Some(p) => IndexOfInvocation(invocations, programs, p, Count(invocations[..i], p))
    case None => if i == 0 then -1 else IndexAt(invocations, programs, i - 1)
  }

  // ----- The loops -----

  method CollectPositions(programs: seq<Option<Id>>) returns (positions: map<Id, seq<nat>>)
    ensures Finds(positions, programs)
  {
    positions := map[];
    for i := 0 to |programs|
      invariant Finds(positions, programs[..i])
    {
      assert programs[..i + 1][..i] == programs[..i];
      if programs[i].Some? {
        var pid := programs[i].value;
        positions := positions[pid := (if pid in positions then positions[pid] else []) + [i]];
      }
    }
    assert programs[..|programs|] == programs;
  }

  function Tally(counts: map<Id, nat>, p: Id): nat {
    if p in counts then counts[p] else 0
  }

  ghost predicate Tallies(counts: map<Id, nat>, invocations: seq<Option<Id>>) {
    forall p: Id :: Tally(counts, p) == Count(invocations, p)
  }

  lemma TallyNext(counts: map<Id, nat>, invocations: seq<Option<Id>>, i: nat)
    requires i < |invocations| && Tallies(counts, invocations[..i])
    ensures invocations[i].None? ==> Tallies(counts, invocations[..i + 1])
    ensures invocations[i].Some? ==>
              var p := invocations[i].value; Tallies(counts[p := Tally(counts, p) + 1], invocations[..i + 1])
  {
    assert invocations[..i + 1][..i] == invocations[..i];
    forall p: Id
      ensures Count(invocations[..i + 1], p) == Tally(counts, p) + (if invocations[i] == Some(p) then 1 else 0)
    {
      assert Tally(counts, p) == Count(invocations[..i], p);
    }
  }

  method CountInvocations(invocations: seq<Option<Id>>) returns (counts: map<Id, nat>)
    ensures Tallies(counts, invocations)
  {
    counts := map[];
    for i := 0 to |invocations|
      invariant Tallies(counts, invocations[..i])
    {
      TallyNext(counts, invocations, i);
      if invocations[i].Some? {
        var pid := invocations[i].value;
        counts := counts[pid := Tally(counts, pid) + 1];
      }
    }
    assert invocations[..|invocations|] == invocations;
  }

  ghost predicate Finds(positions: map<Id, seq<nat>>, programs: seq<Option<Id>>) {
    forall p: Id :: if p in positions then positions[p] == Positions(programs, p) else Positions(programs, p) == []
  }

  method InvocationIndex(positions: map<Id, seq<nat>>, counts: map<Id, nat>, pid: Id, n: nat,
                         ghost invocations: seq<Option<Id>>, ghost programs: seq<Option<Id>>)
    returns (index: int)
    requires Finds(positions, programs) && Tallies(counts, invocations) && n < Count(invocations, pid)
    ensures index == IndexOfInvocation(invocations, programs, pid, n)
  {
    assert Tally(counts, pid) == Count(invocations, pid);
    index := if pid in positions && Tally(counts, pid) == |positions[pid]| then positions[pid][n] else -1;
  }

  ghost predicate Indexed(indices: seq<int>, invocations: seq<Option<Id>>, programs: seq<Option<Id>>) {
    && |indices| <= |invocations|
    && forall j :: 0 <= j < |indices| ==> indices[j] == IndexAt(invocations, programs, j)
  }

  lemma IndexedNext(indices: seq<int>, invocations: seq<Option<Id>>, programs: seq<Option<Id>>, before: int, current: int)
    requires Indexed(indices, invocations, programs) && |indices| < |invocations|
    requires before == if indices == [] then -1 else indices[|indices| - 1]
    requires var i := |indices|;
             current == if invocations[i].None? then before
                        else IndexOfInvocation(invocations, programs, invocations[i].value, Count(invocations[..i], invocations[i].value))
    ensures Indexed(indices + [current], invocations, programs)
  {
  }

  method LogOuterIndices(invocations: seq<Option<Id>>, programs: seq<Option<Id>>) returns (indices: seq<int>)
    ensures |indices| == |invocations|
    ensures forall i :: 0 <= i < |invocations| ==> indices[i] == IndexAt(invocations, programs, i)
  {
    var positions := CollectPositions(programs);
    var counts := CountInvocations(invocations);
    var used: map<Id, nat> := map[];
    var current: int := -1;
    indices := [];
    for i := 0 to |invocations|
      invariant Tallies(used, invocations[..i])
      invariant |indices| == i && Indexed(indices, invocations, programs)
      invariant current == if i == 0 then -1 else indices[i - 1]
    {
      ghost var before := current;
      TallyNext(used, invocations, i);
      if invocations[i].Some? {
        var pid := invocations[i].value;
        var n := Tally(used, pid);
        used := used[pid := n + 1];
        CountPrefix(invocations, i, pid);
        current := InvocationIndex(positions, counts, pid, n, invocations, programs);
      }
      assert current == if invocations[i].None? then before
                        else IndexOfInvocation(invocations, programs, invocations[i].value, Count(invocations[..i], invocations[i].value));
      IndexedNext(indices, invocations, programs, before, current);
      indices := indices + [current];
    }
  }

  // ----- Properties -----

  lemma {:induction false} CountPrefix(invocations: seq<Option<Id>>, i: nat, p: Id)
    requires i < |invocations|
    ensures Count(invocations[..i], p) + (if invocations[i] == Some(p) then 1 else 0) <= Count(invocations, p)
  {
    var n := |invocations| - 1;
    if i < n {
      CountPrefix(invocations[..n], i, p);
      assert invocations[..n][..i] == invocations[..i];
    }
  }

  /** Every index is unknown or an instruction of the program invoked most recently. */
  lemma {:induction false} IndexIsOfLatestProgram(invocations: seq<Option<Id>>, programs: seq<Option<Id>>, i: nat)
    requires i < |invocations|
    ensures var r := IndexAt(invocations, programs, i);
            r == -1 || exists j :: && 0 <= j <= i && invocations[j].Some? && (forall k :: j < k <= i ==> invocations[k].None?)
                                   && 0 <= r < |programs| && programs[r] == invocations[j]
  {
    if invocations[i].None? && i > 0 {
      IndexIsOfLatestProgram(invocations, programs, i - 1);
    }
  }

  // The invoke lines alone.
  function Invoked(invocations: seq<Option<Id>>): seq<Option<Id>> {
    if invocations == [] then []
    else
      var n := |invocations| - 1;
      Invoked(invocations[..n]) + (if invocations[n].Some? then [invocations[n]] else [])
  }

  lemma {:induction false} CountInvoked(invocations: seq<Option<Id>>, p: Id)
    ensures Count(Invoked(invocations), p) == Count(invocations, p)
  {
    if invocations != [] {
      var n := |invocations| - 1;
      CountInvoked(invocations[..n], p);
      if invocations[n].Some? {
        var before := Invoked(invocations[..n]);
        assert (before + [invocations[n]])[..|before|] == before;
      } else {
        assert Invoked(invocations[..n]) + [] == Invoked(invocations[..n]);
      }
    }
  }

  lemma {:induction false} CountIsPositions(programs: seq<Option<Id>>, p: Id)
    ensures Count(programs, p) == |Positions(programs, p)|
  {
    if programs != [] {
      CountIsPositions(programs[..|programs| - 1], p);
    }
  }

  lemma {:induction false} InvokedPrefix(invocations: seq<Option<Id>>, i: nat)
    requires i < |invocations| && invocations[i].Some?
    ensures var k := |Invoked(invocations[..i])|;
            k < |Invoked(invocations)| && Invoked(invocations)[k] == invocations[i]
            && Invoked(invocations)[..k] == Invoked(invocations[..i])
  {
    var n := |invocations| - 1;
    if i < n {
      InvokedPrefix(invocations[..n], i);
      assert invocations[..n][..i] == invocations[..i];
    }
  }

  // The positions of a program before the i-th instruction are those of the prefix.
  lemma {:induction false} PositionsPrefix(programs: seq<Option<Id>>, i: nat, p: Id)
    requires i < |programs| && programs[i] == Some(p)
    ensures var k := |Positions(programs[..i], p)|;
            k < |Positions(programs, p)| && Positions(programs, p)[k] == i
  {
    var n := |programs| - 1;
    if i < n {
      PositionsPrefix(programs[..n], i, p);
      assert programs[..n][..i] == programs[..i];
    }
  }

  // Line `j` is the latest invocation up to line `i`.
  ghost predicate IsLatest(invocations: seq<Option<Id>>, j: nat, i: nat)
    requires i < |invocations|
  {
    j <= i && invocations[j].Some? && forall k :: j < k <= i ==> invocations[k].None?
  }

  lemma {:induction false} IndexIsOfLatest(invocations: seq<Option<Id>>, programs: seq<Option<Id>>, j: nat, i: nat)
    requires i < |invocations| && IsLatest(invocations, j, i)
    ensures IndexAt(invocations, programs, i) == IndexAt(invocations, programs, j)
  {
    if j < i {
      IndexIsOfLatest(invocations, programs, j, i - 1);
    }
  }

  lemma {:induction false} NoneYet(invocations: seq<Option<Id>>, programs: seq<Option<Id>>, i: nat)
    requires i < |invocations| && forall k :: 0 <= k <= i ==> invocations[k].None?
    ensures IndexAt(invocations, programs, i) == -1
  {
    if i > 0 {
      NoneYet(invocations, programs, i - 1);
    }
  }

  lemma {:induction false} PositionExactly(programs: seq<Option<Id>>, p: Id, k: nat, r: nat)
    ensures k < |Positions(programs, p)| && Positions(programs, p)[k] == r <==>
            r < |programs| && programs[r] == Some(p) && Count(programs[..r], p) == k
  {
    if programs != [] {
      var n := |programs| - 1;
      PositionExactly(programs[..n], p, k, r);
      CountIsPositions(programs[..n], p);
      if r < n {
        assert programs[..n][..r] == programs[..r];
      }
    }
  }

  /**
   For every line: its index is `r` if and only if instruction `r` is of the program invoked last, has as many
   instructions of that program before it as there were invocations, and the log shows all of that program's
   invocations; it is unknown without an invocation so far, and if the log does not.
   */
  lemma IndexExactly(invocations: seq<Option<Id>>, programs: seq<Option<Id>>, j: nat, i: nat)
    requires i < |invocations| && IsLatest(invocations, j, i)
    ensures var p, at := invocations[j].value, IndexAt(invocations, programs, i);
            && (at == -1 <==> Count(invocations, p) != Count(programs, p))
            && forall r: nat :: at == r <==> && r < |programs| && programs[r] == Some(p)
                                             && Count(programs[..r], p) == Count(invocations[..j], p)
                                             && Count(invocations, p) == Count(programs, p)
  {
    var p, k := invocations[j].value, Count(invocations[..j], invocations[j].value);
    IndexIsOfLatest(invocations, programs, j, i);
    CountPrefix(invocations, j, p);
    CountIsPositions(programs, p);
    forall r: nat
      ensures k < |Positions(programs, p)| && Positions(programs, p)[k] == r <==>
              r < |programs| && programs[r] == Some(p) && Count(programs[..r], p) == k
    {
      PositionExactly(programs, p, k, r);
    }
  }

  /** If the log shows every outer instruction, invoke lines are numbered 0, 1, 2, and so on. */
  lemma CompleteLogsCount(invocations: seq<Option<Id>>, programs: seq<Option<Id>>, i: nat)
    requires Invoked(invocations) == programs && i < |invocations| && invocations[i].Some?
    ensures IndexAt(invocations, programs, i) == |Invoked(invocations[..i])|
  {
    var p := invocations[i].value;
    var k := |Invoked(invocations[..i])|;
    InvokedPrefix(invocations, i);
    CountInvoked(invocations, p);
    CountInvoked(invocations[..i], p);
    CountIsPositions(programs, p);
    CountIsPositions(programs[..k], p);
    PositionsPrefix(programs, k, p);
  }

  // `shorter` is `invocations` with some lines that invoke `x` deleted.
  ghost predicate Loses(invocations: seq<Option<Id>>, shorter: seq<Option<Id>>, x: Id) {
    if invocations == [] then shorter == []
    else
      var n, m := |invocations| - 1, |shorter| - 1;
      || (shorter != [] && shorter[m] == invocations[n] && Loses(invocations[..n], shorter[..m], x))
      || (invocations[n] == Some(x) && Loses(invocations[..n], shorter, x))
  }

  lemma {:induction false} LosesOnlyX(invocations: seq<Option<Id>>, shorter: seq<Option<Id>>, x: Id, p: Id)
    requires Loses(invocations, shorter, x) && p != x
    ensures Count(shorter, p) == Count(invocations, p)
  {
    if invocations != [] {
      var n, m := |invocations| - 1, |shorter| - 1;
      if shorter != [] && shorter[m] == invocations[n] && Loses(invocations[..n], shorter[..m], x) {
        LosesOnlyX(invocations[..n], shorter[..m], x, p);
      } else {
        LosesOnlyX(invocations[..n], shorter, x, p);
      }
    }
  }

  // The programs invoked other than `x`, each with the index its line in `all` is given.
  function OtherIndices(all: seq<Option<Id>>, programs: seq<Option<Id>>, x: Id, n: nat): seq<(Id, int)>
    requires n <= |all|
  {
    if n == 0 then []
    else
      OtherIndices(all, programs, x, n - 1)
      + (if all[n - 1].Some? && all[n - 1].value != x then [(all[n - 1].value, IndexAt(all, programs, n - 1))] else [])
  }

  lemma SameLineSameIndex(all: seq<Option<Id>>, short: seq<Option<Id>>, programs: seq<Option<Id>>, x: Id, n: nat, m: nat)
    requires n < |all| && m < |short| && all[n] == short[m] && Loses(all[..n], short[..m], x)
    requires forall p: Id :: p != x ==> Count(all, p) == Count(short, p)
    ensures all[n].Some? && all[n].value != x ==> IndexAt(all, programs, n) == IndexAt(short, programs, m)
  {
    if all[n].Some? && all[n].value != x {
      LosesOnlyX(all[..n], short[..m], x, all[n].value);
    }
  }

  lemma LosesStep(a: seq<Option<Id>>, b: seq<Option<Id>>, x: Id)
    requires Loses(a, b, x) && a != []
    ensures || (b != [] && b[|b| - 1] == a[|a| - 1] && Loses(a[..|a| - 1], b[..|b| - 1], x))
            || (a[|a| - 1] == Some(x) && Loses(a[..|a| - 1], b, x))
  {
  }

  lemma {:induction false} LossKeepsOthers(all: seq<Option<Id>>, short: seq<Option<Id>>, programs: seq<Option<Id>>, x: Id,
                                           n: nat, m: nat)
    requires n <= |all| && m <= |short| && Loses(all[..n], short[..m], x)
    requires forall p: Id :: p != x ==> Count(all, p) == Count(short, p)
    ensures OtherIndices(all, programs, x, n) == OtherIndices(short, programs, x, m)
  {
    if n == 0 {
      assert all[..0] == [] && |short[..m]| == 0;
    } else {
      assert all[..n][..n - 1] == all[..n - 1] && (m > 0 ==> short[..m][..m - 1] == short[..m - 1]);
      LosesStep(all[..n], short[..m], x);
      if m > 0 && short[m - 1] == all[n - 1] && Loses(all[..n - 1], short[..m - 1], x) {
        LossKeepsOthers(all, short, programs, x, n - 1, m - 1);
        SameLineSameIndex(all, short, programs, x, n - 1, m - 1);
      } else {
        LossKeepsOthers(all, short, programs, x, n - 1, m);
      }
    }
  }

  /** Losing any invocations of one program never changes the indices given to the others. */
  lemma LostProgramIsContained(all: seq<Option<Id>>, short: seq<Option<Id>>, programs: seq<Option<Id>>, x: Id)
    requires Loses(all, short, x)
    ensures OtherIndices(all, programs, x, |all|) == OtherIndices(short, programs, x, |short|)
  {
    assert all[..|all|] == all && short[..|short|] == short;
    forall p: Id | p != x
      ensures Count(all, p) == Count(short, p)
    {
      LosesOnlyX(all, short, x, p);
    }
    LossKeepsOthers(all, short, programs, x, |all|, |short|);
  }
}
