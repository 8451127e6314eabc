/** The decoder and the canonical encoder are inverse, and encodings are prefix-free. */
module WireRoundTrip {
  import opened Prelude
  import opened WireFormat
  import opened WireTransactions

  // ----- An encoder only writes in front: Put(x, r + t) == Put(x, r) + t -----

  ghost predicate Prepends<T(!new)>(put: (T, Bytes) -> Bytes) {
    forall x, r, t {:trigger put(x, r + t)} :: put(x, r + t) == put(x, r) + t
  }

  lemma ShortPrepends(v: nat, r: Bytes, t: Bytes)
    ensures PutShort(v, r + t) == PutShort(v, r) + t
  {
    if v < 128 {
      Regroup([v], r, t);
    } else if v < 16384 {
      Regroup([128 + v % 128, v / 128], r, t);
    } else {
      Regroup([128 + v % 128, 128 + v / 128 % 128, v / 16384 % 256], r, t);
    }
  }

  lemma BlobPrepends(b: Bytes, r: Bytes, t: Bytes)
    ensures PutBlob(b, r + t) == PutBlob(b, r) + t
  {
    assert b + (r + t) == b + r + t;
    ShortPrepends(|b|, b + r, t);
  }

  lemma {:induction false} ManyPrepends<T(!new)>(put: (T, Bytes) -> Bytes, xs: seq<T>, r: Bytes, t: Bytes)
    requires Prepends(put)
    ensures PutMany(put, xs, r + t) == PutMany(put, xs, r) + t
  {
    if xs != [] {
      ManyPrepends(put, xs[1..], r, t);
    }
  }

  lemma ItemsPrepend()
    ensures Prepends(PutChunk) && Prepends(PutInstruction) && Prepends(PutLookup) && Prepends(PutFrame)
  {
    forall x: Bytes, r: Bytes, t: Bytes
      ensures PutChunk(x, r + t) == PutChunk(x, r) + t
    {
    }
    forall x, r: Bytes, t: Bytes
      ensures PutInstruction(x, r + t) == PutInstruction(x, r) + t
    {
      BlobPrepends(x.data, r, t);
      BlobPrepends(x.accounts, PutBlob(x.data, r), t);
    }
    forall x, r: Bytes, t: Bytes
      ensures PutLookup(x, r + t) == PutLookup(x, r) + t
    {
      BlobPrepends(x.readonly, r, t);
      BlobPrepends(x.writable, PutBlob(x.readonly, r), t);
    }
    forall x, r: Bytes, t: Bytes
      ensures PutFrame(x, r + t) == PutFrame(x, r) + t
    {
    }
  }

  lemma BodyPrepends(v: Version, m: Message, r: Bytes, t: Bytes)
    ensures PutBody(v, m, r + t) == PutBody(v, m, r) + t
  {
    ItemsPrepend();
    var s3 := PutLookups(v, m.lookups, r);
    assert PutLookups(v, m.lookups, r + t) == s3 + t by {
      if v == V0 {
        ManyPrepends(PutLookup, m.lookups, r, t);
        ShortPrepends(|m.lookups|, PutMany(PutLookup, m.lookups, r), t);
      }
    }
    var s2 := PutInstructions(m.instructions, s3);
    assert PutInstructions(m.instructions, s3 + t) == s2 + t by {
      ManyPrepends(PutInstruction, m.instructions, s3, t);
      ShortPrepends(|m.instructions|, PutMany(PutInstruction, m.instructions, s3), t);
    }
    assert m.hash + (s2 + t) == m.hash + s2 + t;
    ManyPrepends(PutChunk, m.keys, m.hash + s2, t);
    ShortPrepends(|m.keys|, PutMany(PutChunk, m.keys, m.hash + s2), t);
  }

  lemma SignaturesPrepend(sigs: seq<Bytes>, r: Bytes, t: Bytes)
    ensures PutSignatures(sigs, r + t) == PutSignatures(sigs, r) + t
  {
    ItemsPrepend();
    ManyPrepends(PutChunk, sigs, r, t);
    ShortPrepends(|sigs|, PutMany(PutChunk, sigs, r), t);
  }

  lemma VersionedHeaderPrepends(v: Version, h: Header, r: Bytes, t: Bytes)
    ensures PutVersionedHeader(v, h, r + t) == PutVersionedHeader(v, h, r) + t
  {
  }

  lemma LegacyPrepends(tx: Transaction, t: Bytes)
    ensures PutLegacy(tx, t) == PutLegacy(tx, []) + t
  {
    assert [] + t == t;
    BodyPrepends(tx.version, tx.message, [], t);
    var body := PutBody(tx.version, tx.message, []);
    VersionedHeaderPrepends(tx.version, tx.message.header, body, t);
    SignaturesPrepend(tx.signatures, PutVersionedHeader(tx.version, tx.message.header, body), t);
  }

  lemma OptionalPrepends(n: nat, o: Option<nat>, r: Bytes, t: Bytes)
    ensures PutOptional(n, o, r + t) == PutOptional(n, o, r) + t
  {
    if o.Some? {
      assert LittleEndian(n, o.value) + (r + t) == LittleEndian(n, o.value) + r + t;
    }
  }

  lemma ConfigPrepends(c: Config, r: Bytes, t: Bytes)
    ensures PutConfig(c, r + t) == PutConfig(c, r) + t
  {
    var s3 := PutOptional(4, c.heapSize, r);
    var s2 := PutOptional(4, c.dataLimit, s3);
    var s1 := PutOptional(4, c.unitLimit, s2);
    OptionalPrepends(4, c.heapSize, r, t);
    OptionalPrepends(4, c.dataLimit, s3, t);
    OptionalPrepends(4, c.unitLimit, s2, t);
    OptionalPrepends(8, c.priorityFee, s1, t);
  }

  lemma {:induction false} PayloadsPrepend(ixs: seq<Instruction>, r: Bytes, t: Bytes)
    ensures PutPayloads(ixs, r + t) == PutPayloads(ixs, r) + t
  {
    if ixs != [] {
      var p := PutPayloads(ixs[1..], r);
      PayloadsPrepend(ixs[1..], r, t);
      assert ixs[0].accounts + (ixs[0].data + (p + t)) == ixs[0].accounts + (ixs[0].data + p) + t;
    }
  }

  lemma V1TailPrepends(tx: Transaction, c: Config, t: Bytes)
    ensures PutV1Tail(tx, c, t) == PutV1Tail(tx, c, []) + t
  {
    ItemsPrepend();
    assert [] + t == t;
    var m := tx.message;
    ManyPrepends(PutChunk, tx.signatures, [], t);
    var s4 := PutMany(PutChunk, tx.signatures, []);
    PayloadsPrepend(m.instructions, s4, t);
    var s3 := PutPayloads(m.instructions, s4);
    ManyPrepends(PutFrame, FramesOf(m.instructions), s3, t);
    var s2 := PutMany(PutFrame, FramesOf(m.instructions), s3);
    ConfigPrepends(c, s2, t);
    ManyPrepends(PutChunk, m.keys, PutConfig(c, s2), t);
  }

  lemma V1HeadPrepends(d: V1Head, r: Bytes, t: Bytes)
    ensures PutV1Head(d, r + t) == PutV1Head(d, r) + t
  {
    var s4 := [d.count, d.keyCount] + r;
    assert [d.count, d.keyCount] + (r + t) == s4 + t;
    assert d.hash + (s4 + t) == d.hash + s4 + t;
    var s3 := d.hash + s4;
    assert PutUint(4, d.mask, s3 + t) == PutUint(4, d.mask, s3) + t;
    var s2 := PutUint(4, d.mask, s3);
    assert PutHeader(d.header, s2 + t) == PutHeader(d.header, s2) + t;
  }

  lemma V1Prepends(tx: Transaction, t: Bytes)
    ensures PutV1(tx, t) == PutV1(tx, []) + t
  {
    var c := if tx.message.config.Some? then tx.message.config.value else Config(None, None, None, None);
    V1TailPrepends(tx, c, t);
    V1HeadPrepends(HeadOf(tx, c), PutV1Tail(tx, c, []), t);
  }

  lemma PutIsEncode(tx: Transaction, t: Bytes)
    ensures Put(tx, t) == Encode(tx) + t
  {
    if tx.version == V1 {
      V1Prepends(tx, t);
    } else {
      LegacyPrepends(tx, t);
    }
  }

  // ----- The theorems -----

  lemma ShapedLegacyIsUnmarked(tx: Transaction, rest: Bytes)
    requires LegacyShape(tx)
    ensures PutLegacy(tx, rest) != [] && PutLegacy(tx, rest)[0] != V1_MARKER
  {
  }

  /** The structural decoder accepts exactly the encodings of well-shaped transactions. */
  lemma GetIsCanonical(s: Bytes, tx: Transaction, rest: Bytes)
    requires s != []
    ensures Get(s) == Ok((tx, rest)) && Sanitized(tx) <==> Valid(tx) && s == Encode(tx) + rest
  {
    PutIsEncode(tx, rest);
    if Get(s) == Ok((tx, rest)) && Sanitized(tx) {
      if s[0] == V1_MARKER {
        PutGetV1(s);
      } else {
        LegacyIsCanonical(s, tx, rest);
      }
    }
    if Valid(tx) && s == Encode(tx) + rest {
      if tx.version == V1 {
        V1IsMarked(tx, rest);
        GetPutV1(tx, rest);
      } else {
        ShapedLegacyIsUnmarked(tx, rest);
        LegacyIsCanonical(s, tx, rest);
      }
    }
  }

  /**
   The decoder's whole behaviour: it returns `tx` and `length` exactly when `tx` is a valid
   transaction whose canonical encoding stands at `offset`, `length` bytes long, and ends the
   input if a complete input is required.
   */
  lemma DecodeExactly(data: Bytes, offset: int, requireComplete: bool, tx: Transaction, length: int)
    ensures DecodeAt(data, offset, requireComplete) == Ok((tx, length))
            <==> && 0 <= offset < |data| && Valid(tx) && length == |Encode(tx)|
                 && Encode(tx) <= data[offset..]
                 && (requireComplete ==> offset + length == |data|)
  {
    if 0 <= offset < |data| {
      DecodedIsEncoding(data, offset, requireComplete, tx, length);
      EncodingIsDecoded(data, offset, requireComplete, tx, length);
    }
  }

  lemma DecodedIsEncoding(data: Bytes, offset: nat, requireComplete: bool, tx: Transaction, length: int)
    requires offset < |data|
    ensures DecodeAt(data, offset, requireComplete) == Ok((tx, length)) ==>
              && Valid(tx) && length == |Encode(tx)| && Encode(tx) <= data[offset..]
              && (requireComplete ==> offset + length == |data|)
  {
    var s := data[offset..];
    if Get(s).Ok? {
      var (t, rest) := Get(s).value;
      GetIsCanonical(s, t, rest);
      CheckIsSanitized(t);
    }
  }

  lemma EncodingIsDecoded(data: Bytes, offset: nat, requireComplete: bool, tx: Transaction, length: int)
    requires offset < |data|
    ensures Valid(tx) && length == |Encode(tx)| && Encode(tx) <= data[offset..]
            && (requireComplete ==> offset + length == |data|) ==>
              DecodeAt(data, offset, requireComplete) == Ok((tx, length))
  {
    var s := data[offset..];
    if Valid(tx) && Encode(tx) <= s {
      var rest := s[|Encode(tx)|..];
      PrefixAndRest(Encode(tx), s);
      GetIsCanonical(s, tx, rest);
      CheckIsSanitized(tx);
      assert Get(s) == Ok((tx, rest)) && |s| - |rest| == |Encode(tx)|;
    }
  }

  lemma PrefixAndRest(a: Bytes, s: Bytes)
    requires a <= s
    ensures s == a + s[|a|..]
  {
  }

  lemma EncodingIsNonempty(tx: Transaction)
    requires Valid(tx)
    ensures Encode(tx) != []
  {
    if tx.version == V1 {
      V1IsMarked(tx, []);
    } else {
      ShapedLegacyIsUnmarked(tx, []);
    }
  }

  lemma Embedded(before: Bytes, code: Bytes, after: Bytes)
    ensures (before + code + after)[|before|..] == code + after
  {
  }

  /** Decoding undoes encoding, whatever precedes the transaction and, if allowed, follows it. */
  lemma DecodeUndoesEncode(before: Bytes, tx: Transaction, after: Bytes, requireComplete: bool)
    requires Valid(tx)
    requires requireComplete ==> after == []
    ensures DecodeAt(before + Encode(tx) + after, |before|, requireComplete) == Ok((tx, |Encode(tx)|))
  {
    var data := before + Encode(tx) + after;
    Embedded(before, Encode(tx), after);
    EncodingIsNonempty(tx);
    DecodeExactly(data, |before|, requireComplete, tx, |Encode(tx)|);
  }

  /** Encoding undoes decoding: every accepted input is the encoding of its result. */
  lemma EncodeUndoesDecode(data: Bytes, offset: int, requireComplete: bool)
    requires DecodeAt(data, offset, requireComplete).Ok?
    ensures var (tx, length) := DecodeAt(data, offset, requireComplete).value;
            && Valid(tx) && 0 <= offset && 0 < length && offset + length <= |data|
            && data[offset..offset + length] == Encode(tx)
            && (requireComplete ==> offset + length == |data|)
  {
    var (tx, length) := DecodeAt(data, offset, requireComplete).value;
    DecodeExactly(data, offset, requireComplete, tx, length);
    EncodingIsNonempty(tx);
    assert data[offset..][..length] == data[offset..offset + length];
  }

  /** No valid transaction's bytes begin another's. */
  lemma EncodingsArePrefixFree(a: Transaction, b: Transaction)
    requires Valid(a) && Valid(b) && Encode(a) <= Encode(b)
    ensures a == b
  {
    DecodeUndoesEncode([], b, [], true);
    assert [] + Encode(b) + [] == Encode(b);
    DecodeExactly(Encode(b), 0, false, a, |Encode(a)|);
    DecodeExactly(Encode(b), 0, false, b, |Encode(b)|);
  }
}
