/** The layouts of the three versions, field by field: what `Encode` writes, put end to end. */
module WireLayout {
  import opened Prelude
  import opened WireFormat
  import opened WireTransactions
  import opened WireRoundTrip

  function Concat<T>(item: T -> Bytes, xs: seq<T>): Bytes {
    if xs == [] then [] else item(xs[0]) + Concat(item, xs[1..])
  }

  // Seven bits a byte, lowest first; all but the last byte have the high bit set.
  function Compact(v: nat): Bytes {
    if v < 128 then [v] else [128 + v % 128] + Compact(v / 128)
  }

  function Sized(b: Bytes): Bytes {
    Compact(|b|) + b
  }

  function Itself(b: Bytes): Bytes {
    b
  }

  function InstructionBytes(ix: Instruction): Bytes {
    [ix.program] + Sized(ix.accounts) + Sized(ix.data)
  }

  function LookupBytes(l: Lookup): Bytes {
    l.key + Sized(l.writable) + Sized(l.readonly)
  }

  function HeaderBytes(h: Header): Bytes {
    [h.signers, h.readonlySigned, h.readonlyUnsigned]
  }

  /** Legacy and V0: compact counts before every list; a V0 message is marked 128 and ends in its lookups. */
  function LegacyBytes(tx: Transaction): Bytes {
    var m := tx.message;
    Compact(|tx.signatures|) + Concat(Itself, tx.signatures)
    + (if tx.version == V0 then [128] else []) + HeaderBytes(m.header)
    + Compact(|m.keys|) + Concat(Itself, m.keys) + m.hash
    + Compact(|m.instructions|) + Concat(InstructionBytes, m.instructions)
    + (if tx.version == V0 then Compact(|m.lookups|) + Concat(LookupBytes, m.lookups) else [])
  }

  // ----- Compact numbers and lists -----

  lemma CompactIsShort(v: nat, rest: Bytes)
    requires v < SHORT_LIMIT
    ensures PutShort(v, rest) == Compact(v) + rest
  {
    if v >= 128 {
      assert v / 128 < 512;
      if v >= 16384 {
        assert v / 128 >= 128 && v / 128 / 128 == v / 16384 < 4;
        assert Compact(v / 16384) == [v / 16384];
        assert Compact(v / 128) == [128 + v / 128 % 128] + [v / 16384];
      } else {
        assert v / 128 < 128;
      }
    }
  }

  lemma BlobIsSized(b: Bytes, rest: Bytes)
    requires ShortLength(b)
    ensures PutBlob(b, rest) == Sized(b) + rest
  {
    CompactIsShort(|b|, b + rest);
    Regroup(Compact(|b|), b, rest);
  }

  // Each item is written as it stands.
  ghost predicate Writes<T(!new)>(put: (T, Bytes) -> Bytes, item: T -> Bytes, xs: seq<T>) {
    forall i: nat, rest: Bytes {:trigger put(xs[i], rest)} :: i < |xs| ==> put(xs[i], rest) == item(xs[i]) + rest
  }

  lemma {:induction false} ManyIsConcat<T(!new)>(put: (T, Bytes) -> Bytes, item: T -> Bytes, xs: seq<T>, rest: Bytes)
    requires Writes(put, item, xs)
    ensures PutMany(put, xs, rest) == Concat(item, xs) + rest
  {
    if xs != [] {
      assert forall i: nat :: i < |xs[1..]| ==> xs[1..][i] == xs[i + 1];
      assert Writes(put, item, xs[1..]);
      ManyIsConcat(put, item, xs[1..], rest);
      Regroup(item(xs[0]), Concat(item, xs[1..]), rest);
    }
  }

  lemma ChunksAreConcat(xs: seq<Bytes>, rest: Bytes)
    ensures PutMany(PutChunk, xs, rest) == Concat(Itself, xs) + rest
  {
    ManyIsConcat(PutChunk, Itself, xs, rest);
  }

  lemma InstructionIsBytes(ix: Instruction, rest: Bytes)
    requires ShortInstruction(ix)
    ensures PutInstruction(ix, rest) == InstructionBytes(ix) + rest
  {
    BlobIsSized(ix.data, rest);
    BlobIsSized(ix.accounts, Sized(ix.data) + rest);
    Regroup(Sized(ix.accounts), Sized(ix.data), rest);
    Regroup([ix.program], Sized(ix.accounts) + Sized(ix.data), rest);
    Regroup([ix.program], Sized(ix.accounts), Sized(ix.data));
  }

  lemma InstructionsAreConcat(ixs: seq<Instruction>, rest: Bytes)
    requires All(ShortInstruction, ixs)
    ensures PutMany(PutInstruction, ixs, rest) == Concat(InstructionBytes, ixs) + rest
  {
    forall i: nat, r: Bytes | i < |ixs|
      ensures PutInstruction(ixs[i], r) == InstructionBytes(ixs[i]) + r
    {
      InstructionIsBytes(ixs[i], r);
    }
    ManyIsConcat(PutInstruction, InstructionBytes, ixs, rest);
  }

  lemma LookupIsBytes(l: Lookup, rest: Bytes)
    requires ShortLookup(l)
    ensures PutLookup(l, rest) == LookupBytes(l) + rest
  {
    BlobIsSized(l.readonly, rest);
    BlobIsSized(l.writable, Sized(l.readonly) + rest);
    Regroup(Sized(l.writable), Sized(l.readonly), rest);
    Regroup(l.key, Sized(l.writable) + Sized(l.readonly), rest);
    Regroup(l.key, Sized(l.writable), Sized(l.readonly));
  }

  lemma LookupsAreConcat(ls: seq<Lookup>, rest: Bytes)
    requires All(ShortLookup, ls)
    ensures PutMany(PutLookup, ls, rest) == Concat(LookupBytes, ls) + rest
  {
    forall i: nat, r: Bytes | i < |ls|
      ensures PutLookup(ls[i], r) == LookupBytes(ls[i]) + r
    {
      LookupIsBytes(ls[i], r);
    }
    ManyIsConcat(PutLookup, LookupBytes, ls, rest);
  }

  // ----- Legacy and V0 -----

  lemma EndOfBody(v: Version, ls: seq<Lookup>)
    requires LookupsShape(v, ls)
    ensures PutLookups(v, ls, []) == if v == V0 then Compact(|ls|) + Concat(LookupBytes, ls) else []
  {
    if v == V0 {
      LookupsAreConcat(ls, []);
      CompactIsShort(|ls|, Concat(LookupBytes, ls) + []);
      assert Concat(LookupBytes, ls) + [] == Concat(LookupBytes, ls);
    }
  }

  lemma FourParts(a: Bytes, b: Bytes, c: Bytes, d: Bytes)
    ensures a + (b + (c + d)) == a + b + c + d
  {
  }

  lemma BodyIsBytes(v: Version, m: Message, tail: Bytes)
    requires BodyShape(v, m.header, m) && tail == PutLookups(v, m.lookups, [])
    ensures PutBody(v, m, []) ==
            Compact(|m.keys|) + Concat(Itself, m.keys) + m.hash + Compact(|m.instructions|) + Concat(InstructionBytes, m.instructions) + tail
  {
    InstructionsAreConcat(m.instructions, tail);
    var ixs := Concat(InstructionBytes, m.instructions) + tail;
    CompactIsShort(|m.instructions|, ixs);
    var body := m.hash + (Compact(|m.instructions|) + ixs);
    ChunksAreConcat(m.keys, body);
    CompactIsShort(|m.keys|, Concat(Itself, m.keys) + body);
    FourParts(Compact(|m.keys|), Concat(Itself, m.keys), m.hash, Compact(|m.instructions|) + ixs);
    Regroup(Compact(|m.keys|) + Concat(Itself, m.keys) + m.hash, Compact(|m.instructions|), ixs);
    Regroup(Compact(|m.keys|) + Concat(Itself, m.keys) + m.hash + Compact(|m.instructions|), Concat(InstructionBytes, m.instructions), tail);
  }

  lemma HeadIsBytes(v: Version, h: Header, body: Bytes)
    ensures PutVersionedHeader(v, h, body) == (if v == V0 then [128] else []) + HeaderBytes(h) + body
  {
    if v == V0 {
      Regroup([128], HeaderBytes(h), body);
    } else {
      assert [] + HeaderBytes(h) == HeaderBytes(h);
    }
  }

  /** A legacy or V0 transaction is written exactly so. */
  lemma LegacyLayout(tx: Transaction)
    requires LegacyShape(tx)
    ensures Encode(tx) == LegacyBytes(tx)
  {
    var m := tx.message;
    var tail, body := PutLookups(tx.version, m.lookups, []), PutBody(tx.version, m, []);
    var mark: Bytes := if tx.version == V0 then [128] else [];
    EndOfBody(tx.version, m.lookups);
    BodyIsBytes(tx.version, m, tail);
    HeadIsBytes(tx.version, m.header, body);
    ChunksAreConcat(tx.signatures, mark + HeaderBytes(m.header) + body);
    CompactIsShort(|tx.signatures|, Concat(Itself, tx.signatures) + (mark + HeaderBytes(m.header) + body));
    JoinLegacy(Compact(|tx.signatures|), Concat(Itself, tx.signatures), mark, HeaderBytes(m.header), Compact(|m.keys|),
               Concat(Itself, m.keys), m.hash, Compact(|m.instructions|), Concat(InstructionBytes, m.instructions), tail);
  }

  lemma JoinLegacy(a: Bytes, b: Bytes, c: Bytes, d: Bytes, e: Bytes, f: Bytes, g: Bytes, h: Bytes, i: Bytes, j: Bytes)
    ensures a + (b + (c + d + (e + f + g + h + i + j))) == a + b + c + d + e + f + g + h + i + j
  {
    Regroup(c + d, e + f + g + h + i, j);
    Regroup(c + d, e + f + g + h, i);
    Regroup(c + d, e + f + g, h);
    Regroup(c + d, e + f, g);
    Regroup(c + d, e, f);
    MoveOut(a, b, c + d + e + f + g + h + i, j);
    MoveOut(a, b, c + d + e + f + g + h, i);
    MoveOut(a, b, c + d + e + f + g, h);
    MoveOut(a, b, c + d + e + f, g);
    MoveOut(a, b, c + d + e, f);
    MoveOut(a, b, c + d, e);
    MoveOut(a, b, c, d);
    Regroup(a, b, c);
  }

  lemma MoveOut(a: Bytes, b: Bytes, c: Bytes, d: Bytes)
    ensures a + (b + (c + d)) == a + (b + c) + d
  {
  }

  // ----- V1 -----

  function Value(n: nat, o: Option<nat>): Bytes {
    if o.Some? then LittleEndian(n, o.value) else []
  }

  function SettingsBytes(c: Config): Bytes {
    Value(8, c.priorityFee) + Value(4, c.unitLimit) + Value(4, c.dataLimit) + Value(4, c.heapSize)
  }

  function FrameBytes(ix: Instruction): Bytes {
    [ix.program, |ix.accounts| % 256] + LittleEndian(2, |ix.data|)
  }

  function PayloadBytes(ix: Instruction): Bytes {
    ix.accounts + ix.data
  }

  /** V1: marked 129; the mask of settings, one-byte counts, and lengths before the payloads they belong to. */
  function V1Bytes(tx: Transaction, c: Config): Bytes {
    var m := tx.message;
    [129] + HeaderBytes(m.header) + LittleEndian(4, MaskOf(c)) + m.hash + [|m.instructions| % 256, |m.keys| % 256]
    + Concat(Itself, m.keys) + SettingsBytes(c)
    + Concat(FrameBytes, m.instructions) + Concat(PayloadBytes, m.instructions) + Concat(Itself, tx.signatures)
  }

  /** Numbers are little-endian: each further byte counts 256 times what the one before it counts. */
  lemma {:induction false} NextByteCounts(b: Bytes, x: Byte)
    ensures UintOf(b + [x]) == UintOf(b) + Power256(|b|) * x
  {
    if b == [] {
      assert ([] + [x])[1..] == [];
    } else {
      NextByteCounts(b[1..], x);
      assert (b + [x])[1..] == b[1..] + [x];
      assert Power256(|b|) == 256 * Power256(|b| - 1);
      assert 256 * (Power256(|b| - 1) * x) == 256 * Power256(|b| - 1) * x;
    }
  }

  lemma OptionalIsValue(n: nat, o: Option<nat>, rest: Bytes)
    ensures PutOptional(n, o, rest) == Value(n, o) + rest
  {
  }

  lemma ConfigIsSettings(c: Config, rest: Bytes)
    ensures PutConfig(c, rest) == SettingsBytes(c) + rest
  {
    var h, d, u, f := Value(4, c.heapSize), Value(4, c.dataLimit), Value(4, c.unitLimit), Value(8, c.priorityFee);
    OptionalIsValue(4, c.heapSize, rest);
    OptionalIsValue(4, c.dataLimit, h + rest);
    OptionalIsValue(4, c.unitLimit, d + (h + rest));
    OptionalIsValue(8, c.priorityFee, u + (d + (h + rest)));
    Regroup(f + u + d, h, rest);
    FourParts(f, u, d, h + rest);
  }

  lemma {:induction false} FramesAreConcat(ixs: seq<Instruction>, rest: Bytes)
    ensures PutMany(PutFrame, FramesOf(ixs), rest) == Concat(FrameBytes, ixs) + rest
  {
    if ixs != [] {
      assert FramesOf(ixs)[1..] == FramesOf(ixs[1..]);
      FramesAreConcat(ixs[1..], rest);
      Regroup([ixs[0].program, |ixs[0].accounts| % 256], LittleEndian(2, |ixs[0].data|), Concat(FrameBytes, ixs[1..]) + rest);
      Regroup(FrameBytes(ixs[0]), Concat(FrameBytes, ixs[1..]), rest);
    }
  }

  lemma {:induction false} PayloadsAreConcat(ixs: seq<Instruction>, rest: Bytes)
    ensures PutPayloads(ixs, rest) == Concat(PayloadBytes, ixs) + rest
  {
    if ixs != [] {
      PayloadsAreConcat(ixs[1..], rest);
      Regroup(ixs[0].accounts, ixs[0].data, Concat(PayloadBytes, ixs[1..]) + rest);
      Regroup(PayloadBytes(ixs[0]), Concat(PayloadBytes, ixs[1..]), rest);
    }
  }

  lemma TailIsBytes(tx: Transaction, c: Config)
    ensures PutV1Tail(tx, c, []) ==
            Concat(Itself, tx.message.keys) + (SettingsBytes(c) + (Concat(FrameBytes, tx.message.instructions)
            + (Concat(PayloadBytes, tx.message.instructions) + Concat(Itself, tx.signatures))))
  {
    var m := tx.message;
    var sigs := Concat(Itself, tx.signatures);
    ChunksAreConcat(tx.signatures, []);
    assert sigs + [] == sigs;
    PayloadsAreConcat(m.instructions, sigs);
    var payloads := Concat(PayloadBytes, m.instructions) + sigs;
    FramesAreConcat(m.instructions, payloads);
    var frames := Concat(FrameBytes, m.instructions) + payloads;
    ConfigIsSettings(c, frames);
    ChunksAreConcat(m.keys, SettingsBytes(c) + frames);
  }

  /** A V1 transaction is written exactly so. */
  lemma V1Layout(tx: Transaction, c: Config)
    requires tx.version == V1 && tx.message.config == Some(c)
    ensures Encode(tx) == V1Bytes(tx, c)
  {
    var m := tx.message;
    TailIsBytes(tx, c);
    JoinV1([129], HeaderBytes(m.header), LittleEndian(4, MaskOf(c)), m.hash, [|m.instructions| % 256, |m.keys| % 256],
           Concat(Itself, m.keys), SettingsBytes(c), Concat(FrameBytes, m.instructions), Concat(PayloadBytes, m.instructions),
           Concat(Itself, tx.signatures));
  }

  lemma JoinV1(a: Bytes, b: Bytes, c: Bytes, d: Bytes, e: Bytes, f: Bytes, g: Bytes, h: Bytes, i: Bytes, j: Bytes)
    ensures a + (b + (c + (d + (e + (f + (g + (h + (i + j)))))))) == a + b + c + d + e + f + g + h + i + j
  {
    Regroup(a, b, c + (d + (e + (f + (g + (h + (i + j)))))));
    Regroup(a + b, c, d + (e + (f + (g + (h + (i + j))))));
    Regroup(a + b + c, d, e + (f + (g + (h + (i + j)))));
    Regroup(a + b + c + d, e, f + (g + (h + (i + j))));
    Regroup(a + b + c + d + e, f, g + (h + (i + j)));
    Regroup(a + b + c + d + e + f, g, h + (i + j));
    Regroup(a + b + c + d + e + f + g, h, i + j);
    Regroup(a + b + c + d + e + f + g + h, i, j);
  }
}
