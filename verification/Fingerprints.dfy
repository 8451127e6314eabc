/**
 The fingerprint of an account's contents. SHA-256 is taken to be injective; what it hashes is owner,
 data and "lamports:executable:rentEpoch" in a row, with nothing between the data and the lamports.
 */
module Fingerprints {
  import opened Prelude

  datatype Contents = Contents(owner: Bytes, data: Bytes, lamports: nat, executable: bool, rentEpoch: nat)

  datatype Fingerprint = Sha256(hashed: Bytes)

  const COLON: Byte := 58

  // A number in decimal digits.
  function Digits(n: nat): Bytes {
    if n < 10 then [48 + n] else Digits(n / 10) + [48 + n % 10]
  }

  // "true" or "false".
  function Flag(b: bool): Bytes {
    if b then [116, 114, 117, 101] else [102, 97, 108, 115, 101]
  }

  function Hashed(c: Contents): Bytes {
    Front(c) + [COLON] + Flag(c.executable) + [COLON] + Digits(c.rentEpoch)
  }

  function Front(c: Contents): Bytes {
    c.owner + c.data + Digits(c.lamports)
  }

  function Print(c: Contents): Fingerprint {
    Sha256(Hashed(c))
  }

  lemma {:induction false} DigitsAreDigits(n: nat)
    ensures Digits(n) != [] && forall i :: 0 <= i < |Digits(n)| ==> 48 <= Digits(n)[i] < 58
  {
    if n >= 10 {
      DigitsAreDigits(n / 10);
    }
  }

  lemma {:induction false} DigitsAreUnique(a: nat, b: nat)
    requires Digits(a) == Digits(b)
    ensures a == b
  {
    DigitsAreDigits(a / 10);
    DigitsAreDigits(b / 10);
    if a >= 10 && b >= 10 {
      SameParts(Digits(a / 10), 48 + a % 10, Digits(b / 10), 48 + b % 10);
      DigitsAreUnique(a / 10, b / 10);
    }
  }

  lemma SameParts(s: Bytes, x: Byte, t: Bytes, y: Byte)
    requires s + [x] == t + [y]
    ensures s == t && x == y
  {
    assert (s + [x])[..|s + [x]| - 1] == s && (t + [y])[..|t + [y]| - 1] == t;
    assert (s + [x])[|s + [x]| - 1] == x && (t + [y])[|t + [y]| - 1] == y;
  }

  lemma NoneAfterLast(a: Bytes, x: Bytes, c: Byte, j: int)
    requires c !in x && |a| < j < |a| + 1 + |x|
    ensures (a + [c] + x)[j] != c
  {
    assert (a + [c] + x)[j] == x[j - |a| - 1];
  }

  // What follows the last separator, and what precedes it, can be told apart.
  lemma LastSeparator(a: Bytes, x: Bytes, b: Bytes, y: Bytes, c: Byte)
    requires c !in x && c !in y && a + [c] + x == b + [c] + y
    ensures a == b && x == y
  {
    var s := a + [c] + x;
    assert s[|a|] == c && s[|b|] == c;
    if |a| < |b| {
      NoneAfterLast(a, x, c, |b|);
    } else if |b| < |a| {
      NoneAfterLast(b, y, c, |a|);
    } else {
      assert a == s[..|a|] && b == s[..|b|];
      assert x == s[|a| + 1..] && y == s[|b| + 1..];
    }
  }

  // Alike as far as the fingerprint goes.
  predicate Alike(a: Contents, b: Contents) {
    a.executable == b.executable && a.rentEpoch == b.rentEpoch && Front(a) == Front(b)
  }

  /** Two contents share a fingerprint if and only if they are alike. */
  lemma PrintsExactly(a: Contents, b: Contents)
    ensures Print(a) == Print(b) <==> Alike(a, b)
  {
    if Print(a) == Print(b) {
      DigitsAreDigits(a.rentEpoch);
      DigitsAreDigits(b.rentEpoch);
      LastSeparator(Front(a) + [COLON] + Flag(a.executable), Digits(a.rentEpoch),
                    Front(b) + [COLON] + Flag(b.executable), Digits(b.rentEpoch), COLON);
      LastSeparator(Front(a), Flag(a.executable), Front(b), Flag(b.executable), COLON);
      DigitsAreUnique(a.rentEpoch, b.rentEpoch);
      assert Flag(true)[0] != Flag(false)[0];
    }
  }

  /** Owners of one size: alike means the same owner, and data and digits that agree in a row. */
  lemma AlikeUnderOwners(a: Contents, b: Contents)
    requires |a.owner| == |b.owner|
    ensures Alike(a, b) <==>
            && a.owner == b.owner && a.executable == b.executable && a.rentEpoch == b.rentEpoch
            && a.data + Digits(a.lamports) == b.data + Digits(b.lamports)
  {
    SameHeads(a.owner, a.data, Digits(a.lamports), b.owner, b.data, Digits(b.lamports));
  }

  lemma SameHeads(a: Bytes, x: Bytes, u: Bytes, b: Bytes, y: Bytes, v: Bytes)
    requires |a| == |b|
    ensures a + x + u == b + y + v <==> a == b && x + u == y + v
  {
    assert a + x + u == a + (x + u) && b + y + v == b + (y + v);
    assert (a + (x + u))[..|a|] == a && (b + (y + v))[..|b|] == b;
    assert (a + (x + u))[|a|..] == x + u && (b + (y + v))[|b|..] == y + v;
  }

  predicate SameSize(a: Contents, b: Contents) {
    |a.owner| == |b.owner| && |a.data| == |b.data|
  }

  /** Contents of one size are alike only if they are the same. */
  lemma SameSizeIsToldApart(a: Contents, b: Contents)
    requires SameSize(a, b)
    ensures Alike(a, b) <==> a == b
  {
    if Alike(a, b) {
      AlikeUnderOwners(a, b);
      SameHeads(a.data, Digits(a.lamports), [], b.data, Digits(b.lamports), []);
      assert Digits(a.lamports) + [] == Digits(a.lamports) && Digits(b.lamports) + [] == Digits(b.lamports);
      DigitsAreUnique(a.lamports, b.lamports);
    }
  }

  /** Longer data is alike exactly if it ends in digits that the other's lamports begin with. */
  lemma AlikeByTrailingDigits(a: Contents, b: Contents)
    requires a.owner == b.owner && a.executable == b.executable && a.rentEpoch == b.rentEpoch && |a.data| <= |b.data|
    ensures Alike(a, b) <==>
            a.data <= b.data && Digits(a.lamports) == b.data[|a.data|..] + Digits(b.lamports)
  {
    AlikeUnderOwners(a, b);
    var first, last := b.data[..|a.data|], b.data[|a.data|..];
    assert b.data == first + last;
    SameHeads(a.data, Digits(a.lamports), [], first, last, Digits(b.lamports));
    assert a.data + Digits(a.lamports) + [] == a.data + Digits(a.lamports);
    assert Digits(a.lamports) + [] == Digits(a.lamports);
  }

  // The digit "1" at the end of the data, or at the head of the lamports.
  function Colliding(owner: Bytes, data: Bytes): (Contents, Contents) {
    (Contents(owner, data + [49], 2, false, 0), Contents(owner, data, 12, false, 0))
  }

  /** These differ and share a fingerprint. */
  lemma CollidingAreAlike(owner: Bytes, data: Bytes)
    ensures var (a, b) := Colliding(owner, data); a != b && Alike(a, b)
  {
    var (a, b) := Colliding(owner, data);
    assert Digits(12) == [49, 50] && Digits(2) == [50];
    assert owner + (data + [49]) + [50] == owner + data + [49, 50];
  }
}
