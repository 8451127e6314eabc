/**
 What can be left of a stack. Whatever a call and its callees print, the stack they leave begins with
 some of the entries it began with, and no other program is on it.
 */
module LogEntries {
  import opened Prelude
  import opened LogStacks
  import opened LogChains
  import opened LogMessages

  predicate IsProgram(e: Option<Id>) {
    e.Some? && e.value.Program?
  }

  // `r` begins with the first `k` entries of `s`, and no program stands above them.
  ghost predicate Remains(s: Stack, r: Stack, k: nat) {
    k <= |s| && k <= |r| && r[..k] == s[..k] && forall j :: k <= j < |r| ==> !IsProgram(r[j])
  }

  lemma AllRemains(s: Stack)
    ensures Remains(s, s, |s|)
  {
  }

  lemma PrefixRemains(s: Stack, r: Stack, k: nat, n: nat) returns (j: nat)
    requires Remains(s, r, k) && n <= |r|
    ensures j == (if n < k then n else k) && Remains(s, r[..n], j)
  {
    j := if n < k then n else k;
    assert r[..n][..j] == r[..k][..j] && s[..k][..j] == s[..j];
  }

  lemma MoreRemains(s: Stack, r: Stack, k: nat, t: Stack)
    requires Remains(s, r, k) && NoPrograms(t)
    ensures Remains(s, r + t, k)
  {
    assert (r + t)[..k] == r[..k];
    forall j | k <= j < |r + t|
      ensures !IsProgram((r + t)[j])
    {
      assert (r + t)[j] == if j < |r| then r[j] else t[j - |r|];
    }
  }

  lemma ResizeRemains(loop: Loop, s: Stack, r: Stack, k: nat, n: nat) returns (j: nat)
    requires Remains(s, r, k)
    ensures j == (if n < k then n else k) && Remains(s, Resize(loop, r, n), j)
  {
    j := k;
    if n <= |r| {
      j := PrefixRemains(s, r, k, n);
    } else if loop == Loose {
      HolesAreEmpty(n - |r|);
      MoreRemains(s, r, k, Holes(n - |r|));
    }
  }

  lemma CutRemains(s: Stack, r: Stack, k: nat, y: Id) returns (j: nat)
    requires Remains(s, r, k)
    ensures j <= k && Remains(s, Cut(r, y), j)
  {
    var n := CutIsPrefix(r, y);
    j := PrefixRemains(s, r, k, n);
  }

  lemma AnnounceRemains(loop: Loop, s: Stack, r: Stack, k: nat, heard: Reading) returns (j: nat)
    requires Remains(s, r, k)
    ensures j <= k && Remains(s, Announce(loop, r, heard), j)
    ensures Announced(loop, heard).Some? ==> j < Announced(loop, heard).value.depth
  {
    j := k;
    if Announced(loop, heard).Some? {
      var a := Announced(loop, heard).value;
      j := ResizeRemains(loop, s, r, k, a.depth - 1);
      MoreRemains(s, Resize(loop, r, a.depth - 1), j, [Some(Words(a.text))]);
    }
  }

  lemma HearRemains(loop: Loop, s: Stack, r: Stack, k: nat, heard: Reading) returns (j: nat)
    requires Remains(s, r, k)
    ensures j <= k && Remains(s, Hear(loop, r, heard), j)
    ensures Announced(loop, heard).Some? ==> j < Announced(loop, heard).value.depth
  {
    j := AnnounceRemains(loop, s, r, k, heard);
    HearIs(loop, r, heard);
    if Ended(loop, heard).Some? {
      j := CutRemains(s, Announce(loop, r, heard), j, Words(Ended(loop, heard).value));
    }
  }

  // The end of a call takes its own entry away, or, if that is lost, an earlier one of its program or none.
  lemma EndRemains(s: Stack, r: Stack, k: nat, p: nat, ended: Stack, i: nat) returns (j: nat)
    requires Remains(s, r, k) && Remains(r + [Some(Program(p))], ended, i)
    ensures j <= k && j <= i && Remains(s, Cut(ended, Program(p)), j)
  {
    if i == |r| + 1 {
      var above := ended[i..];
      assert ended == r + [Some(Program(p))] + above by {
        assert ended == ended[..i] + above;
      }
      EndAbove(r, p, above);
      j := k;
    } else {
      var m := if i < k then i else k;
      assert ended[..i] == r[..i];
      assert ended[..m] == s[..m] by {
        assert ended[..m] == ended[..i][..m] && r[..m] == r[..i][..m];
        assert r[..m] == r[..k][..m] && s[..m] == s[..k][..m];
      }
      forall n | m <= n < |ended|
        ensures !IsProgram(ended[n])
      {
        if n < i {
          assert ended[n] == r[n];
        }
      }
      j := CutRemains(s, ended, m, Program(p));
    }
  }

  lemma {:induction false} LeavesRemain(loop: Loop, s: Stack, r: Stack, k: nat, b: Body, d: nat) returns (j: nat)
    requires Remains(s, r, k) && d > 0
    ensures j <= k && Remains(s, Leaves(loop, r, b, d), j)
    decreases b
  {
    match b
    case End => j := k;
    case Say(_, _, rest) => j := LeavesRemain(loop, s, r, k, rest, d);
    case Print(heard, rest) =>
      var i := HearRemains(loop, s, r, k, heard);
      j := LeavesRemain(loop, s, Hear(loop, r, heard), i, rest, d);
    case Sub(p, inner, rest) =>
      var kept := Resize(loop, r, d - 1);
      var inside := kept + [Some(Program(p))];
      var i := ResizeRemains(loop, s, r, k, d - 1);
      AllRemains(inside);
      var n := LeavesRemain(loop, inside, inside, |inside|, inner, d + 1);
      var m := EndRemains(s, kept, i, p, Leaves(loop, inside, inner, d + 1), n);
      j := LeavesRemain(loop, s, Cut(Leaves(loop, inside, inner, d + 1), Program(p)), m, rest, d);
  }

  // ----- When the next line is attributed to its writer -----

  // The stack that is left is that of the call up to its entry `k`, which is one of its program.
  ghost predicate LeftAt(loop: Loop, own: Stack, w: nat, b: Body, d: nat, k: nat) {
    0 < k <= |own| && own[k - 1] == Some(Program(w)) && After(loop, own, Render(b, d + 1)) == own[..k]
  }

  ghost predicate LeftAtSome(loop: Loop, own: Stack, w: nat, b: Body, d: nat) {
    exists k :: LeftAt(loop, own, w, b, d, k)
  }

  lemma TopRemains(own: Stack, r: Stack, k: nat, w: nat)
    requires Remains(own, r, k) && Top(r) == Some(Program(w))
    ensures 0 < k <= |own| && own[k - 1] == Some(Program(w)) && r == own[..k]
  {
    assert !(k <= |r| - 1);
    assert r[..k] == r && r[|r| - 1] == r[..k][k - 1];
  }

  lemma LeavesItself(loop: Loop, own: Stack, w: nat, b: Body, d: nat) returns (k: nat)
    requires d > 0 && Top(Leaves(loop, own, b, d)) == Some(Program(w))
    ensures 0 < k <= |own| && own[k - 1] == Some(Program(w)) && Leaves(loop, own, b, d) == own[..k]
  {
    AllRemains(own);
    k := LeavesRemain(loop, own, own, |own|, b, d);
    TopRemains(own, Leaves(loop, own, b, d), k, w);
  }

  lemma LeftIsRight(loop: Loop, outer: Stack, w: nat, b: Body, d: nat)
    requires LeftAtSome(loop, outer + [Some(Program(w))], w, b, d)
    ensures Right(loop, outer, w, b, d)
  {
    var k :| LeftAt(loop, outer + [Some(Program(w))], w, b, d, k);
  }

  /**
   Whatever stack a call starts on, and whatever it and its callees print: its next data line is
   attributed to it if and only if what is left of the stack is the stack up to an entry of its program:
   its own, or, when it called itself, that of an earlier call.
   */
  lemma RightExactly(loop: Loop, outer: Stack, w: nat, b: Body, d: nat)
    ensures Right(loop, outer, w, b, d) <==> LeftAtSome(loop, outer + [Some(Program(w))], w, b, d)
  {
    var own := outer + [Some(Program(w))];
    if Right(loop, outer, w, b, d) {
      RightMeans(loop, outer, w, b, d);
      var k := LeavesItself(loop, own, w, b, d + 1);
      LeavesIsAfter(loop, own, b, d + 1);
      assert LeftAt(loop, own, w, b, d, k);
    } else if LeftAtSome(loop, own, w, b, d) {
      LeftIsRight(loop, outer, w, b, d);
    }
  }

  /** So it is restored, or its own entry is lost and an earlier call of its program is on top. */
  lemma RestoredOrEarlier(loop: Loop, outer: Stack, w: nat, b: Body, d: nat)
    ensures Right(loop, outer, w, b, d) <==>
            || Restored(loop, outer, w, b, d)
            || exists k :: 0 < k <= |outer| && LeftAt(loop, outer + [Some(Program(w))], w, b, d, k)
  {
    var own := outer + [Some(Program(w))];
    RightExactly(loop, outer, w, b, d);
    assert own[|own| - 1] == Some(Program(w)) && own[..|own|] == own;
    if Restored(loop, outer, w, b, d) {
      assert LeftAt(loop, own, w, b, d, |own|);
    }
  }
}
