/** Failure-compatible results, optional values and bytes shared by every module. */
module Prelude {
  type Byte = b: int | 0 <= b < 256
  type Bytes = seq<Byte>

  datatype Option<+T> = None | Some(value: T)

  datatype Result<+T, +E> = Ok(value: T) | Err(error: E) {
    predicate IsFailure() {
      Err?
    }

    function PropagateFailure<U>(): Result<U, E>
      requires Err?
    {
      Err(error)
    }

    function Extract(): T
      requires Ok?
    {
      value
    }
  }

  predicate Distinct<T(==)>(s: seq<T>) {
    forall i, j :: 0 <= i < j < |s| ==> s[i] != s[j]
  }

  // The name of an instruction of a later version.
  predicate IsVersioned(s: string) {
    |s| >= 3 && s[|s| - 3] == '_' && s[|s| - 2] == 'v' && (s[|s| - 1] == '2' || s[|s| - 1] == '3')
  }

  // ----- Filtering -----

  function Filter<T>(s: seq<T>, keep: T -> bool): seq<T> {
    if s == [] then [] else Filter(s[..|s| - 1], keep) + If(s[|s| - 1], keep)
  }

  function If<T>(x: T, keep: T -> bool): seq<T> {
    if keep(x) then [x] else []
  }

  lemma Regroup<T>(a: seq<T>, b: seq<T>, c: seq<T>)
    ensures a + (b + c) == a + b + c
  {
  }

  lemma FilterLast<T>(s: seq<T>, x: T, keep: T -> bool)
    ensures Filter(s + [x], keep) == Filter(s, keep) + If(x, keep)
  {
    assert (s + [x])[..|s|] == s;
  }

  lemma FilterOne<T>(x: T, keep: T -> bool)
    ensures Filter([x], keep) == If(x, keep)
  {
    assert [x][..0] == [] && [] + If(x, keep) == If(x, keep);
  }

  lemma {:induction false} FilterConcat<T>(a: seq<T>, b: seq<T>, keep: T -> bool)
    ensures Filter(a + b, keep) == Filter(a, keep) + Filter(b, keep)
  {
    if b == [] {
      assert a + b == a && Filter(a, keep) + [] == Filter(a, keep);
    } else {
      var n := |b| - 1;
      FilterConcat(a, b[..n], keep);
      assert b == b[..n] + [b[n]];
      Regroup(a, b[..n], [b[n]]);
      FilterLast(a + b[..n], b[n], keep);
      Regroup(Filter(a, keep), Filter(b[..n], keep), If(b[n], keep));
    }
  }

  lemma {:induction false} FilterMembers<T>(s: seq<T>, keep: T -> bool, x: T)
    ensures x in Filter(s, keep) <==> x in s && keep(x)
  {
    if s != [] {
      FilterMembers(s[..|s| - 1], keep, x);
      assert s == s[..|s| - 1] + [s[|s| - 1]];
    }
  }
}
