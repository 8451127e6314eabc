/**
 The Solana wire format of Legacy, V0 and V1 transactions: the grammar, a canonical encoder
 (the repository has none), the decoder as a function on the remaining input, and the proof
 that the two are inverse.

 An encoder `PutX(x, rest)` writes `x` in front of `rest`; a decoder `GetX(s)` returns the value
 and what is left of `s`. Every pair obeys the two laws `GetX(PutX(x, rest)) == Ok((x, rest))`
 and `GetX(s) == Ok((x, rest)) ==> s == PutX(x, rest)`.
 */
module WireFormat {
  import opened Prelude

  datatype Error =
    | InvalidOffset
    | Truncated
    | InvalidShort
    | NoncanonicalShort
    | InvalidConfigMask
    | LimitExceeded
    | InvalidHeapSize
    | TooLong
    | TooManySignatures
    | UnknownVersion
    | TooManyKeys
    | SignatureMismatch
    | InvalidHeader
    | DuplicateAccounts
    | EmptyLookup
    | TooManyAccounts
    | InvalidInstruction
    | TrailingBytes

  type Parse<T> = Result<(T, Bytes), Error>

  datatype Version = Legacy | V0 | V1

  datatype Header = Header(signers: Byte, readonlySigned: Byte, readonlyUnsigned: Byte)

  datatype Instruction = Instruction(program: Byte, accounts: Bytes, data: Bytes)

  datatype Lookup = Lookup(key: Bytes, writable: Bytes, readonly: Bytes)

  datatype Config = Config(priorityFee: Option<nat>, unitLimit: Option<nat>, dataLimit: Option<nat>, heapSize: Option<nat>)

  datatype Message = Message(header: Header, keys: seq<Bytes>, hash: Bytes, instructions: seq<Instruction>,
                             lookups: seq<Lookup>, config: Option<Config>)

  datatype Transaction = Transaction(version: Version, signatures: seq<Bytes>, message: Message)

  // ----- Raw bytes -----

  function GetBytes(n: nat, s: Bytes): Parse<Bytes> {
    if n <= |s| then Ok((s[..n], s[n..])) else Err(Truncated)
  }

  lemma GetPutBytes(b: Bytes, rest: Bytes)
    ensures GetBytes(|b|, b + rest) == Ok((b, rest))
  {
    assert (b + rest)[..|b|] == b;
    assert (b + rest)[|b|..] == rest;
  }

  function GetByte(s: Bytes): Parse<Byte> {
    if s == [] then Err(Truncated) else Ok((s[0], s[1..]))
  }

  // ----- Little-endian unsigned integers -----

  function Power256(n: nat): nat {
    if n == 0 then 1 else 256 * Power256(n - 1)
  }

  function LittleEndian(n: nat, v: nat): (b: Bytes)
    ensures |b| == n
  {
    if n == 0 then [] else [v % 256] + LittleEndian(n - 1, v / 256)
  }

  function UintOf(b: Bytes): nat {
    if b == [] then 0 else b[0] + 256 * UintOf(b[1..])
  }

  lemma {:induction false} UintOfLittleEndian(n: nat, v: nat)
    requires v < Power256(n)
    ensures UintOf(LittleEndian(n, v)) == v
  {
    if n > 0 {
      UintOfLittleEndian(n - 1, v / 256);
      assert LittleEndian(n, v)[1..] == LittleEndian(n - 1, v / 256);
    }
  }

  lemma LowDigit(digit: Byte, rest: nat)
    ensures (digit + 256 * rest) % 256 == digit && (digit + 256 * rest) / 256 == rest
  {
  }

  lemma {:induction false} LittleEndianUintOf(b: Bytes)
    ensures UintOf(b) < Power256(|b|)
    ensures LittleEndian(|b|, UintOf(b)) == b
  {
    if b != [] {
      LittleEndianUintOf(b[1..]);
      LowDigit(b[0], UintOf(b[1..]));
      assert b == [b[0]] + b[1..];
    }
  }

  function GetUint(n: nat, s: Bytes): Parse<nat> {
    var (b, s) :- GetBytes(n, s);
    Ok((UintOf(b), s))
  }

  function PutUint(n: nat, v: nat, rest: Bytes): Bytes {
    LittleEndian(n, v) + rest
  }

  lemma GetPutUint(n: nat, v: nat, rest: Bytes)
    requires v < Power256(n)
    ensures GetUint(n, PutUint(n, v, rest)) == Ok((v, rest))
  {
    GetPutBytes(LittleEndian(n, v), rest);
    UintOfLittleEndian(n, v);
  }

  lemma PutGetUint(n: nat, s: Bytes)
    requires GetUint(n, s).Ok?
    ensures var (v, rest) := GetUint(n, s).value; v < Power256(n) && s == PutUint(n, v, rest)
  {
    LittleEndianUintOf(s[..n]);
  }

  // ----- compact-u16 -----

  const SHORT_LIMIT: nat := 65536

  function PutShort(v: nat, rest: Bytes): Bytes {
    if v < 128 then [v] + rest
    else if v < 16384 then [128 + v % 128, v / 128] + rest
    else [128 + v % 128, 128 + v / 128 % 128, v / 16384 % 256] + rest
  }

  // The loop of at most three bytes, `i` bytes in; bits already read are below 128^i.
  function GetShortFrom(i: nat, value: nat, s: Bytes): Parse<nat>
    requires i <= 3
    decreases 3 - i
  {
    if i == 3 then Err(InvalidShort)
    else
      var (b, s) :- GetByte(s);
      if i == 2 && b > 3 then Err(InvalidShort)
      else
        var value := value + b % 128 * Power128(i);
        if b >= 128 then GetShortFrom(i + 1, value, s)
        else if i > 0 && b == 0 then Err(NoncanonicalShort)
        else Ok((value, s))
  }

  function Power128(i: nat): nat {
    if i == 0 then 1 else 128 * Power128(i - 1)
  }

  function GetShort(s: Bytes): Parse<nat> {
    GetShortFrom(0, 0, s)
  }

  // One, two or three bytes, spelled out.
  lemma ShortCases(s: Bytes)
    ensures |s| >= 1 && s[0] < 128 ==> GetShort(s) == Ok((s[0] as int, s[1..]))
    ensures |s| >= 2 && s[0] >= 128 && 0 < s[1] < 128 ==> GetShort(s) == Ok((s[0] % 128 + s[1] * 128 as int, s[2..]))
    ensures |s| >= 3 && s[0] >= 128 && s[1] >= 128 && 0 < s[2] <= 3 ==>
              GetShort(s) == Ok((s[0] % 128 + s[1] % 128 * 128 + s[2] * 16384 as int, s[3..]))
    ensures GetShort(s).Ok? ==>
              || (|s| >= 1 && s[0] < 128)
              || (|s| >= 2 && s[0] >= 128 && 0 < s[1] < 128)
              || (|s| >= 3 && s[0] >= 128 && s[1] >= 128 && 0 < s[2] <= 3)
  {
    assert Power128(1) == 128 && Power128(2) == 128 * Power128(1);
    if |s| >= 2 {
      assert s[1..][1..] == s[2..];
    }
    if |s| >= 3 {
      assert s[2..][1..] == s[3..];
    }
  }

  lemma ShortDigits(a: nat, b: nat, c: nat)
    requires a < 128 && b < 128 && c <= 3
    ensures var v := a + b * 128 + c * 16384; v % 128 == a && v / 128 % 128 == b && v / 16384 % 256 == c
  {
    var v := a + b * 128 + c * 16384;
    assert v / 128 == b + c * 128;
  }

  lemma TwoBytes(s: Bytes)
    requires |s| >= 2 && s[0] >= 128 && 0 < s[1] < 128
    ensures s == PutShort(s[0] as int % 128 + s[1] as int * 128, s[2..])
  {
    ShortDigits(s[0] % 128, s[1], 0);
    assert s == [s[0], s[1]] + s[2..];
  }

  lemma ThreeBytes(s: Bytes)
    requires |s| >= 3 && s[0] >= 128 && s[1] >= 128 && 0 < s[2] <= 3
    ensures s == PutShort(s[0] as int % 128 + s[1] as int % 128 * 128 + s[2] as int * 16384, s[3..])
  {
    ShortDigits(s[0] % 128, s[1] % 128, s[2]);
    assert s == [s[0], s[1], s[2]] + s[3..];
  }

  lemma PutGetShort(s: Bytes)
    requires GetShort(s).Ok?
    ensures var (v, rest) := GetShort(s).value; v < SHORT_LIMIT && s == PutShort(v, rest)
  {
    ShortCases(s);
    if s[0] < 128 {
      assert s == [s[0]] + s[1..];
    } else if s[1] < 128 {
      TwoBytes(s);
    } else {
      ThreeBytes(s);
    }
  }

  lemma GetPutShort(v: nat, rest: Bytes)
    requires v < SHORT_LIMIT
    ensures GetShort(PutShort(v, rest)) == Ok((v, rest))
  {
    var s := PutShort(v, rest);
    ShortCases(s);
    if v < 128 {
      assert s[1..] == rest;
    } else if v < 16384 {
      assert s[2..] == rest;
    } else {
      assert s[3..] == rest;
      ThreeDigits(v);
    }
  }

  lemma ThreeDigits(v: nat)
    requires 16384 <= v < SHORT_LIMIT
    ensures v == v % 128 + v / 128 % 128 * 128 + v / 16384 * 16384 && 0 < v / 16384 <= 3
  {
    assert v / 128 / 128 == v / 16384;
  }

  /** Exactly one byte string is accepted for every value: the canonical one. */
  lemma ShortIsCanonical(s: Bytes, v: nat, rest: Bytes)
    ensures GetShort(s) == Ok((v, rest)) <==> v < SHORT_LIMIT && s == PutShort(v, rest)
  {
    if GetShort(s).Ok? {
      PutGetShort(s);
    }
    if v < SHORT_LIMIT && s == PutShort(v, rest) {
      GetPutShort(v, rest);
    }
  }

  // ----- Length-prefixed byte strings -----

  ghost predicate ShortLength(b: Bytes) {
    |b| < SHORT_LIMIT
  }

  function PutBlob(b: Bytes, rest: Bytes): Bytes {
    PutShort(|b|, b + rest)
  }

  function GetBlob(s: Bytes): Parse<Bytes> {
    var (n, s) :- GetShort(s);
    GetBytes(n, s)
  }

  lemma BlobIsCanonical(s: Bytes, b: Bytes, rest: Bytes)
    ensures GetBlob(s) == Ok((b, rest)) <==> ShortLength(b) && s == PutBlob(b, rest)
  {
    if GetBlob(s).Ok? {
      PutGetShort(s);
    }
    if ShortLength(b) && s == PutBlob(b, rest) {
      GetPutShort(|b|, b + rest);
      GetPutBytes(b, rest);
    }
  }

  // ----- Lists: `n` items of one kind in a row -----

  /** The two laws of an encoder/decoder pair, in one equivalence. */
  ghost predicate LawfulAt<T(!new)>(put: (T, Bytes) -> Bytes, get: Bytes -> Parse<T>, valid: T -> bool,
                                    s: Bytes, x: T, rest: Bytes) {
    get(s) == Ok((x, rest)) <==> valid(x) && s == put(x, rest)
  }

  ghost predicate Lawful<T(!new)>(put: (T, Bytes) -> Bytes, get: Bytes -> Parse<T>, valid: T -> bool) {
    forall s: Bytes, x: T, rest: Bytes :: LawfulAt(put, get, valid, s, x, rest)
  }

  function PutMany<T>(put: (T, Bytes) -> Bytes, xs: seq<T>, rest: Bytes): Bytes {
    if xs == [] then rest else put(xs[0], PutMany(put, xs[1..], rest))
  }

  function GetMany<T>(n: nat, get: Bytes -> Parse<T>, s: Bytes): Parse<seq<T>> {
    if n == 0 then Ok(([], s))
    else
      var (x, s) :- get(s);
      var (xs, s) :- GetMany(n - 1, get, s);
      Ok(([x] + xs, s))
  }

  ghost predicate All<T>(valid: T -> bool, xs: seq<T>) {
    forall i :: 0 <= i < |xs| ==> valid(xs[i])
  }

  lemma {:induction false} ManyIsCanonical<T(!new)>(put: (T, Bytes) -> Bytes, get: Bytes -> Parse<T>, valid: T -> bool,
                                                    n: nat, s: Bytes, xs: seq<T>, rest: Bytes)
    requires Lawful(put, get, valid)
    ensures GetMany(n, get, s) == Ok((xs, rest)) <==> |xs| == n && All(valid, xs) && s == PutMany(put, xs, rest)
  {
    if n > 0 {
      if GetMany(n, get, s).Ok? {
        var (x, s1) := get(s).value;
        assert LawfulAt(put, get, valid, s, x, s1);
        var (tail, end) := GetMany(n - 1, get, s1).value;
        ManyIsCanonical(put, get, valid, n - 1, s1, tail, end);
        assert ([x] + tail)[1..] == tail;
      }
      if |xs| == n && All(valid, xs) && s == PutMany(put, xs, rest) {
        var s1 := PutMany(put, xs[1..], rest);
        assert LawfulAt(put, get, valid, s, xs[0], s1);
        ManyIsCanonical(put, get, valid, n - 1, s1, xs[1..], rest);
        assert xs == [xs[0]] + xs[1..];
      }
    }
  }

  // ----- Signatures and account keys -----

  function PutChunk(c: Bytes, rest: Bytes): Bytes {
    c + rest
  }

  function GetKey(s: Bytes): Parse<Bytes> {
    GetBytes(32, s)
  }

  function GetSignature(s: Bytes): Parse<Bytes> {
    GetBytes(64, s)
  }

  ghost predicate IsKey(b: Bytes) {
    |b| == 32
  }

  ghost predicate IsSignature(b: Bytes) {
    |b| == 64
  }

  lemma ChunksAreLawful()
    ensures Lawful(PutChunk, GetKey, IsKey) && Lawful(PutChunk, GetSignature, IsSignature)
  {
    forall s, x, rest
      ensures GetKey(s) == Ok((x, rest)) <==> IsKey(x) && s == PutChunk(x, rest)
      ensures GetSignature(s) == Ok((x, rest)) <==> IsSignature(x) && s == PutChunk(x, rest)
    {
      GetPutBytes(x, rest);
      assert |s| >= 32 ==> s == s[..32] + s[32..];
      assert |s| >= 64 ==> s == s[..64] + s[64..];
    }
  }

  // ----- Legacy and V0 instructions -----

  ghost predicate ShortInstruction(ix: Instruction) {
    ShortLength(ix.accounts) && ShortLength(ix.data)
  }

  function PutInstruction(ix: Instruction, rest: Bytes): Bytes {
    [ix.program] + PutBlob(ix.accounts, PutBlob(ix.data, rest))
  }

  function GetInstruction(s: Bytes): Parse<Instruction> {
    var (program, s) :- GetByte(s);
    var (accounts, s) :- GetBlob(s);
    var (data, s) :- GetBlob(s);
    Ok((Instruction(program, accounts, data), s))
  }

  lemma InstructionIsCanonical(s: Bytes, ix: Instruction, rest: Bytes)
    ensures GetInstruction(s) == Ok((ix, rest)) <==> ShortInstruction(ix) && s == PutInstruction(ix, rest)
  {
    var s2 := PutBlob(ix.data, rest);
    BlobIsCanonical(s2, ix.data, rest);
    BlobIsCanonical(PutBlob(ix.accounts, s2), ix.accounts, s2);
    assert ([ix.program] + PutBlob(ix.accounts, s2))[1..] == PutBlob(ix.accounts, s2);
    if s != [] && GetBlob(s[1..]).Ok? {
      var (accounts, t) := GetBlob(s[1..]).value;
      BlobIsCanonical(s[1..], accounts, t);
      BlobIsCanonical(t, ix.data, rest);
      assert s == [s[0]] + s[1..];
    }
  }

  // ----- V0 address table lookups -----

  ghost predicate ShortLookup(l: Lookup) {
    IsKey(l.key) && ShortLength(l.writable) && ShortLength(l.readonly)
  }

  function PutLookup(l: Lookup, rest: Bytes): Bytes {
    l.key + PutBlob(l.writable, PutBlob(l.readonly, rest))
  }

  function GetLookup(s: Bytes): Parse<Lookup> {
    var (key, s) :- GetBytes(32, s);
    var (writable, s) :- GetBlob(s);
    var (readonly, s) :- GetBlob(s);
    Ok((Lookup(key, writable, readonly), s))
  }

  lemma LookupIsCanonical(s: Bytes, l: Lookup, rest: Bytes)
    ensures GetLookup(s) == Ok((l, rest)) <==> ShortLookup(l) && s == PutLookup(l, rest)
  {
    var s2 := PutBlob(l.readonly, rest);
    BlobIsCanonical(s2, l.readonly, rest);
    BlobIsCanonical(PutBlob(l.writable, s2), l.writable, s2);
    GetPutBytes(l.key, PutBlob(l.writable, s2));
    if |s| >= 32 && GetBlob(s[32..]).Ok? {
      var (writable, t) := GetBlob(s[32..]).value;
      BlobIsCanonical(s[32..], writable, t);
      BlobIsCanonical(t, l.readonly, rest);
      assert s == s[..32] + s[32..];
    }
  }

  lemma InstructionIsLawful(s: Bytes, x: Instruction, rest: Bytes)
    ensures LawfulAt(PutInstruction, GetInstruction, ShortInstruction, s, x, rest)
  {
    InstructionIsCanonical(s, x, rest);
  }

  lemma InstructionsAreLawful()
    ensures Lawful(PutInstruction, GetInstruction, ShortInstruction)
  {
    forall s: Bytes, x: Instruction, rest: Bytes
      ensures LawfulAt(PutInstruction, GetInstruction, ShortInstruction, s, x, rest)
    {
      InstructionIsLawful(s, x, rest);
    }
  }

  lemma LookupIsLawful(s: Bytes, x: Lookup, rest: Bytes)
    ensures LawfulAt(PutLookup, GetLookup, ShortLookup, s, x, rest)
  {
    LookupIsCanonical(s, x, rest);
  }

  lemma LookupsAreLawful()
    ensures Lawful(PutLookup, GetLookup, ShortLookup)
  {
    forall s: Bytes, x: Lookup, rest: Bytes
      ensures LawfulAt(PutLookup, GetLookup, ShortLookup, s, x, rest)
    {
      LookupIsLawful(s, x, rest);
    }
  }
}
