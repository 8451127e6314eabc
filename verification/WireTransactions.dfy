/** Whole transactions: the three layouts, the semantic checks, and the round trips. */
module WireTransactions {
  import opened Prelude
  import opened WireFormat

  // ----- Headers -----

  function PutHeader(h: Header, rest: Bytes): Bytes {
    [h.signers, h.readonlySigned, h.readonlyUnsigned] + rest
  }

  function GetHeader(s: Bytes): Parse<Header> {
    var (b, s) :- GetBytes(3, s);
    Ok((Header(b[0], b[1], b[2]), s))
  }

  lemma HeaderIsCanonical(s: Bytes, h: Header, rest: Bytes)
    ensures GetHeader(s) == Ok((h, rest)) <==> s == PutHeader(h, rest)
  {
    GetPutBytes([h.signers, h.readonlySigned, h.readonlyUnsigned], rest);
    if |s| >= 3 {
      assert s == [s[0], s[1], s[2]] + s[3..];
    }
  }

  // A first byte below 128 is a Legacy header; 128 announces V0.
  function PutVersionedHeader(v: Version, h: Header, rest: Bytes): Bytes {
    if v == V0 then [128] + PutHeader(h, rest) else PutHeader(h, rest)
  }

  function GetVersionedHeader(s: Bytes): Parse<(Version, Header)> {
    var (first, s) :- GetByte(s);
    if first >= 128 then
      if first != 128 then Err(UnknownVersion)
      else
        var (h, s) :- GetHeader(s);
        Ok(((V0, h), s))
    else
      var (b, s) :- GetBytes(2, s);
      Ok(((Legacy, Header(first, b[0], b[1])), s))
  }

  ghost predicate VersionedHeaderShape(v: Version, h: Header) {
    v == V0 || (v == Legacy && h.signers < 128)
  }

  lemma VersionedHeaderIsCanonical(s: Bytes, v: Version, h: Header, rest: Bytes)
    ensures GetVersionedHeader(s) == Ok(((v, h), rest)) <==> VersionedHeaderShape(v, h) && s == PutVersionedHeader(v, h, rest)
  {
    if v == V0 {
      HeaderIsCanonical(PutHeader(h, rest), h, rest);
      assert ([128] + PutHeader(h, rest))[1..] == PutHeader(h, rest);
    } else {
      assert PutHeader(h, rest)[1..] == [h.readonlySigned, h.readonlyUnsigned] + rest;
      GetPutBytes([h.readonlySigned, h.readonlyUnsigned], rest);
    }
    if s != [] && s[0] == 128 && GetHeader(s[1..]).Ok? {
      HeaderIsCanonical(s[1..], h, rest);
      assert s == [s[0]] + s[1..];
    }
    if |s| >= 3 && s[0] < 128 {
      assert s[1..][2..] == s[3..];
      assert s == [s[0], s[1], s[2]] + s[3..];
    }
  }

  // ----- Legacy and V0 -----

  function PutLookups(v: Version, ls: seq<Lookup>, rest: Bytes): Bytes {
    if v == V0 then PutShort(|ls|, PutMany(PutLookup, ls, rest)) else rest
  }

  function GetLookups(v: Version, s: Bytes): Parse<seq<Lookup>> {
    if v == V0 then
      var (n, s) :- GetShort(s);
      GetMany(n, GetLookup, s)
    else Ok(([], s))
  }

  ghost predicate LookupsShape(v: Version, ls: seq<Lookup>) {
    if v == V0 then |ls| < SHORT_LIMIT && All(ShortLookup, ls) else ls == []
  }

  lemma LookupListIsCanonical(v: Version, s: Bytes, ls: seq<Lookup>, rest: Bytes)
    ensures GetLookups(v, s) == Ok((ls, rest)) <==> LookupsShape(v, ls) && s == PutLookups(v, ls, rest)
  {
    if v == V0 {
      LookupsAreLawful();
      var t := PutMany(PutLookup, ls, rest);
      ShortIsCanonical(s, |ls|, t);
      ManyIsCanonical(PutLookup, GetLookup, ShortLookup, |ls|, t, ls, rest);
      if GetShort(s).Ok? {
        var (n, t) := GetShort(s).value;
        ShortIsCanonical(s, n, t);
        ManyIsCanonical(PutLookup, GetLookup, ShortLookup, n, t, ls, rest);
      }
    }
  }

  // The instruction list is preceded by its count.
  function PutInstructions(ixs: seq<Instruction>, rest: Bytes): Bytes {
    PutShort(|ixs|, PutMany(PutInstruction, ixs, rest))
  }

  function GetInstructions(s: Bytes): Parse<seq<Instruction>> {
    var (n, s) :- GetShort(s);
    GetMany(n, GetInstruction, s)
  }

  ghost predicate InstructionsShape(ixs: seq<Instruction>) {
    |ixs| < SHORT_LIMIT && All(ShortInstruction, ixs)
  }

  lemma InstructionListIsCanonical(s: Bytes, ixs: seq<Instruction>, rest: Bytes)
    ensures GetInstructions(s) == Ok((ixs, rest)) <==> InstructionsShape(ixs) && s == PutInstructions(ixs, rest)
  {
    InstructionsAreLawful();
    var t := PutMany(PutInstruction, ixs, rest);
    ShortIsCanonical(s, |ixs|, t);
    ManyIsCanonical(PutInstruction, GetInstruction, ShortInstruction, |ixs|, t, ixs, rest);
    if GetShort(s).Ok? {
      var (n, t) := GetShort(s).value;
      ShortIsCanonical(s, n, t);
      ManyIsCanonical(PutInstruction, GetInstruction, ShortInstruction, n, t, ixs, rest);
    }
  }

  function PutKeys(keys: seq<Bytes>, rest: Bytes): Bytes {
    PutShort(|keys|, PutMany(PutChunk, keys, rest))
  }

  function GetKeys(s: Bytes): Parse<seq<Bytes>> {
    var (n, s) :- GetShort(s);
    if n > 256 then Err(TooManyKeys) else GetMany(n, GetKey, s)
  }

  ghost predicate KeysShape(keys: seq<Bytes>) {
    |keys| <= 256 && All(IsKey, keys)
  }

  lemma KeysAreCanonical(s: Bytes, keys: seq<Bytes>, rest: Bytes)
    ensures GetKeys(s) == Ok((keys, rest)) <==> KeysShape(keys) && s == PutKeys(keys, rest)
  {
    ChunksAreLawful();
    var t := PutMany(PutChunk, keys, rest);
    ShortIsCanonical(s, |keys|, t);
    ManyIsCanonical(PutChunk, GetKey, IsKey, |keys|, t, keys, rest);
    if GetShort(s).Ok? {
      var (n, t) := GetShort(s).value;
      ShortIsCanonical(s, n, t);
      ManyIsCanonical(PutChunk, GetKey, IsKey, n, t, keys, rest);
    }
  }

  function PutSignatures(sigs: seq<Bytes>, rest: Bytes): Bytes {
    PutShort(|sigs|, PutMany(PutChunk, sigs, rest))
  }

  function GetSignatures(s: Bytes): Parse<seq<Bytes>> {
    var (n, s) :- GetShort(s);
    if n > 127 then Err(TooManySignatures) else GetMany(n, GetSignature, s)
  }

  ghost predicate SignaturesShape(sigs: seq<Bytes>) {
    |sigs| <= 127 && All(IsSignature, sigs)
  }

  lemma SignaturesAreCanonical(s: Bytes, sigs: seq<Bytes>, rest: Bytes)
    ensures GetSignatures(s) == Ok((sigs, rest)) <==> SignaturesShape(sigs) && s == PutSignatures(sigs, rest)
  {
    ChunksAreLawful();
    var t := PutMany(PutChunk, sigs, rest);
    ShortIsCanonical(s, |sigs|, t);
    ManyIsCanonical(PutChunk, GetSignature, IsSignature, |sigs|, t, sigs, rest);
    if GetShort(s).Ok? {
      var (n, t) := GetShort(s).value;
      ShortIsCanonical(s, n, t);
      ManyIsCanonical(PutChunk, GetSignature, IsSignature, n, t, sigs, rest);
    }
  }

  // Everything after the header.
  function PutBody(v: Version, m: Message, rest: Bytes): Bytes {
    PutKeys(m.keys, m.hash + PutInstructions(m.instructions, PutLookups(v, m.lookups, rest)))
  }

  function GetBody(v: Version, h: Header, s: Bytes): Parse<Message> {
    var (keys, s) :- GetKeys(s);
    var (hash, s) :- GetBytes(32, s);
    var (ixs, s) :- GetInstructions(s);
    var (lookups, s) :- GetLookups(v, s);
    Ok((Message(h, keys, hash, ixs, lookups, None), s))
  }

  ghost predicate BodyShape(v: Version, h: Header, m: Message) {
    && m.header == h && KeysShape(m.keys) && |m.hash| == 32 && InstructionsShape(m.instructions)
    && LookupsShape(v, m.lookups) && m.config == None
  }

  lemma GetPutBody(v: Version, h: Header, m: Message, rest: Bytes)
    requires BodyShape(v, h, m)
    ensures GetBody(v, h, PutBody(v, m, rest)) == Ok((m, rest))
  {
    var s3 := PutLookups(v, m.lookups, rest);
    var s2 := PutInstructions(m.instructions, s3);
    LookupListIsCanonical(v, s3, m.lookups, rest);
    InstructionListIsCanonical(s2, m.instructions, s3);
    GetPutBytes(m.hash, s2);
    KeysAreCanonical(PutBody(v, m, rest), m.keys, m.hash + s2);
  }

  lemma PutGetBody(v: Version, h: Header, s: Bytes)
    requires GetBody(v, h, s).Ok?
    ensures var (m, rest) := GetBody(v, h, s).value; BodyShape(v, h, m) && s == PutBody(v, m, rest)
  {
    var (keys, s1) := GetKeys(s).value;
    KeysAreCanonical(s, keys, s1);
    var (hash, s2) := GetBytes(32, s1).value;
    assert s1 == hash + s2;
    var (ixs, s3) := GetInstructions(s2).value;
    InstructionListIsCanonical(s2, ixs, s3);
    var (lookups, rest) := GetLookups(v, s3).value;
    LookupListIsCanonical(v, s3, lookups, rest);
  }

  function PutLegacy(tx: Transaction, rest: Bytes): Bytes {
    PutSignatures(tx.signatures, PutVersionedHeader(tx.version, tx.message.header, PutBody(tx.version, tx.message, rest)))
  }

  function GetLegacy(s: Bytes): Parse<Transaction> {
    var (sigs, s) :- GetSignatures(s);
    var (vh, s) :- GetVersionedHeader(s);
    var (m, s) :- GetBody(vh.0, vh.1, s);
    if |sigs| != m.header.signers then Err(SignatureMismatch)
    else Ok((Transaction(vh.0, sigs, m), s))
  }

  ghost predicate LegacyShape(tx: Transaction) {
    && tx.version != V1 && SignaturesShape(tx.signatures) && |tx.signatures| == tx.message.header.signers
    && BodyShape(tx.version, tx.message.header, tx.message)
  }

  lemma LegacyIsCanonical(s: Bytes, tx: Transaction, rest: Bytes)
    ensures GetLegacy(s) == Ok((tx, rest)) <==> LegacyShape(tx) && s == PutLegacy(tx, rest)
  {
    if GetLegacy(s) == Ok((tx, rest)) {
      var (sigs, s1) := GetSignatures(s).value;
      SignaturesAreCanonical(s, sigs, s1);
      var (vh, s2) := GetVersionedHeader(s1).value;
      VersionedHeaderIsCanonical(s1, vh.0, vh.1, s2);
      PutGetBody(vh.0, vh.1, s2);
    }
    if LegacyShape(tx) && s == PutLegacy(tx, rest) {
      var s2 := PutBody(tx.version, tx.message, rest);
      var s1 := PutVersionedHeader(tx.version, tx.message.header, s2);
      SignaturesAreCanonical(s, tx.signatures, s1);
      VersionedHeaderIsCanonical(s1, tx.version, tx.message.header, s2);
      GetPutBody(tx.version, tx.message.header, tx.message, rest);
    }
  }

  // ----- V1 configuration -----

  function PutOptional(n: nat, o: Option<nat>, rest: Bytes): Bytes {
    if o.Some? then PutUint(n, o.value, rest) else rest
  }

  function GetOptional(present: bool, n: nat, s: Bytes): Parse<Option<nat>> {
    if present then
      var (v, s) :- GetUint(n, s);
      Ok((Some(v), s))
    else Ok((None, s))
  }

  ghost predicate Fits(n: nat, o: Option<nat>) {
    o.Some? ==> o.value < Power256(n)
  }

  lemma OptionalIsCanonical(present: bool, n: nat, s: Bytes, o: Option<nat>, rest: Bytes)
    ensures GetOptional(present, n, s) == Ok((o, rest)) <==> o.Some? == present && Fits(n, o) && s == PutOptional(n, o, rest)
  {
    if o.Some? && Fits(n, o) {
      GetPutUint(n, o.value, rest);
    }
    if GetUint(n, s).Ok? {
      PutGetUint(n, s);
    }
  }

  // Bits 0 and 1 stand together for the eight-byte fee.
  function MaskOf(c: Config): (mask: nat)
    ensures mask < 32
  {
    (if c.priorityFee.Some? then 3 else 0) + (if c.unitLimit.Some? then 4 else 0)
    + (if c.dataLimit.Some? then 8 else 0) + (if c.heapSize.Some? then 16 else 0)
  }

  predicate ValidMask(mask: nat) {
    mask < 32 && (mask % 4 == 0 || mask % 4 == 3)
  }

  function PutConfig(c: Config, rest: Bytes): Bytes {
    PutOptional(8, c.priorityFee, PutOptional(4, c.unitLimit, PutOptional(4, c.dataLimit, PutOptional(4, c.heapSize, rest))))
  }

  predicate ValidHeap(heap: Option<nat>) {
    heap.Some? ==> 32768 <= heap.value <= 262144 && heap.value % 1024 == 0
  }

  function GetConfig(mask: nat, s: Bytes): Parse<Config> {
    var (fee, s) :- GetOptional(mask % 4 != 0, 8, s);
    var (units, s) :- GetOptional(mask / 4 % 2 == 1, 4, s);
    var (loaded, s) :- GetOptional(mask / 8 % 2 == 1, 4, s);
    var (heap, s) :- GetOptional(mask / 16 % 2 == 1, 4, s);
    if !ValidHeap(heap) then Err(InvalidHeapSize)
    else Ok((Config(fee, units, loaded, heap), s))
  }

  ghost predicate ConfigShape(c: Config) {
    Fits(8, c.priorityFee) && Fits(4, c.unitLimit) && Fits(4, c.dataLimit) && Fits(4, c.heapSize) && ValidHeap(c.heapSize)
  }

  lemma MaskBits(fee: bool, units: bool, loaded: bool, heap: bool)
    ensures var mask := (if fee then 3 else 0) + (if units then 4 else 0) + (if loaded then 8 else 0) + (if heap then 16 else 0);
            (mask % 4 != 0) == fee && (mask / 4 % 2 == 1) == units && (mask / 8 % 2 == 1) == loaded && (mask / 16 % 2 == 1) == heap
  {
  }

  lemma BitsMask(mask: nat)
    requires ValidMask(mask)
    ensures mask == (if mask % 4 != 0 then 3 else 0) + (if mask / 4 % 2 == 1 then 4 else 0)
                    + (if mask / 8 % 2 == 1 then 8 else 0) + (if mask / 16 % 2 == 1 then 16 else 0)
  {
  }

  lemma PutGetConfig(mask: nat, s: Bytes)
    requires ValidMask(mask) && GetConfig(mask, s).Ok?
    ensures var (c, rest) := GetConfig(mask, s).value; ConfigShape(c) && mask == MaskOf(c) && s == PutConfig(c, rest)
  {
    var (c, rest) := GetConfig(mask, s).value;
    var (fee, s1) := GetOptional(mask % 4 != 0, 8, s).value;
    OptionalIsCanonical(mask % 4 != 0, 8, s, fee, s1);
    var (units, s2) := GetOptional(mask / 4 % 2 == 1, 4, s1).value;
    OptionalIsCanonical(mask / 4 % 2 == 1, 4, s1, units, s2);
    var (loaded, s3) := GetOptional(mask / 8 % 2 == 1, 4, s2).value;
    OptionalIsCanonical(mask / 8 % 2 == 1, 4, s2, loaded, s3);
    OptionalIsCanonical(mask / 16 % 2 == 1, 4, s3, c.heapSize, rest);
    assert c == Config(fee, units, loaded, c.heapSize);
    BitsMask(mask);
  }

  lemma GetPutConfig(c: Config, rest: Bytes)
    requires ConfigShape(c)
    ensures GetConfig(MaskOf(c), PutConfig(c, rest)) == Ok((c, rest))
  {
    var mask := MaskOf(c);
    MaskBits(c.priorityFee.Some?, c.unitLimit.Some?, c.dataLimit.Some?, c.heapSize.Some?);
    var s3 := PutOptional(4, c.heapSize, rest);
    var s2 := PutOptional(4, c.dataLimit, s3);
    var s1 := PutOptional(4, c.unitLimit, s2);
    OptionalIsCanonical(mask % 4 != 0, 8, PutConfig(c, rest), c.priorityFee, s1);
    OptionalIsCanonical(mask / 4 % 2 == 1, 4, s1, c.unitLimit, s2);
    OptionalIsCanonical(mask / 8 % 2 == 1, 4, s2, c.dataLimit, s3);
    OptionalIsCanonical(mask / 16 % 2 == 1, 4, s3, c.heapSize, rest);
  }

  // ----- V1 instructions: all headers first, then all payloads -----

  datatype Frame = Frame(program: Byte, accounts: nat, data: nat)

  function PutFrame(f: Frame, rest: Bytes): Bytes {
    [f.program, f.accounts % 256] + PutUint(2, f.data, rest)
  }

  function GetFrame(s: Bytes): Parse<Frame> {
    var (program, s) :- GetByte(s);
    var (accounts, s) :- GetByte(s);
    var (data, s) :- GetUint(2, s);
    Ok((Frame(program, accounts, data), s))
  }

  ghost predicate FrameShape(f: Frame) {
    f.accounts < 256 && f.data < Power256(2)
  }

  lemma FrameIsCanonical(s: Bytes, f: Frame, rest: Bytes)
    ensures GetFrame(s) == Ok((f, rest)) <==> FrameShape(f) && s == PutFrame(f, rest)
  {
    if FrameShape(f) {
      var t := PutUint(2, f.data, rest);
      GetPutUint(2, f.data, rest);
      assert PutFrame(f, rest)[1..] == [f.accounts % 256] + t && ([f.accounts % 256] + t)[1..] == t;
    }
    if GetFrame(s).Ok? {
      PutGetUint(2, s[1..][1..]);
      assert s == [s[0], s[1]] + s[1..][1..];
    }
  }

  lemma FramesAreLawful()
    ensures Lawful(PutFrame, GetFrame, FrameShape)
  {
    forall s, x, rest
      ensures GetFrame(s) == Ok((x, rest)) <==> FrameShape(x) && s == PutFrame(x, rest)
    {
      FrameIsCanonical(s, x, rest);
    }
  }

  function FramesOf(ixs: seq<Instruction>): (fs: seq<Frame>)
    ensures |fs| == |ixs|
    ensures forall i :: 0 <= i < |ixs| ==> fs[i] == Frame(ixs[i].program, |ixs[i].accounts|, |ixs[i].data|)
  {
    seq(|ixs|, i requires 0 <= i < |ixs| => Frame(ixs[i].program, |ixs[i].accounts|, |ixs[i].data|))
  }

  function PutPayloads(ixs: seq<Instruction>, rest: Bytes): Bytes {
    if ixs == [] then rest else ixs[0].accounts + (ixs[0].data + PutPayloads(ixs[1..], rest))
  }

  function GetPayloads(fs: seq<Frame>, s: Bytes): Parse<seq<Instruction>> {
    if fs == [] then Ok(([], s))
    else
      var (accounts, s) :- GetBytes(fs[0].accounts, s);
      var (data, s) :- GetBytes(fs[0].data, s);
      var (ixs, s) :- GetPayloads(fs[1..], s);
      Ok(([Instruction(fs[0].program, accounts, data)] + ixs, s))
  }

  lemma {:induction false} PutGetPayloads(fs: seq<Frame>, s: Bytes)
    requires GetPayloads(fs, s).Ok?
    ensures var (ixs, rest) := GetPayloads(fs, s).value; fs == FramesOf(ixs) && s == PutPayloads(ixs, rest)
  {
    if fs != [] {
      var (accounts, s1) := GetBytes(fs[0].accounts, s).value;
      var (data, s2) := GetBytes(fs[0].data, s1).value;
      PutGetPayloads(fs[1..], s2);
      var (ixs, rest) := GetPayloads(fs[1..], s2).value;
      assert s == accounts + (data + s2);
      var ix := Instruction(fs[0].program, accounts, data);
      assert ([ix] + ixs)[1..] == ixs;
      assert fs == [fs[0]] + fs[1..];
    }
  }

  lemma {:induction false} GetPutPayloads(ixs: seq<Instruction>, rest: Bytes)
    ensures GetPayloads(FramesOf(ixs), PutPayloads(ixs, rest)) == Ok((ixs, rest))
  {
    if ixs != [] {
      var s2 := PutPayloads(ixs[1..], rest);
      GetPutBytes(ixs[0].accounts, ixs[0].data + s2);
      GetPutBytes(ixs[0].data, s2);
      assert FramesOf(ixs)[1..] == FramesOf(ixs[1..]);
      GetPutPayloads(ixs[1..], rest);
      assert ixs == [ixs[0]] + ixs[1..];
    }
  }

  // ----- V1 -----

  const V1_MARKER: Byte := 129
  const V1_SIZE_LIMIT: nat := 4096

  datatype V1Head = V1Head(header: Header, mask: nat, hash: Bytes, count: Byte, keyCount: Byte)

  function PutV1Head(d: V1Head, rest: Bytes): Bytes {
    [V1_MARKER] + PutHeader(d.header, PutUint(4, d.mask, d.hash + ([d.count, d.keyCount] + rest)))
  }

  function GetV1Head(s: Bytes): Parse<V1Head> {
    var (_, s) :- GetBytes(1, s);
    var (header, s) :- GetHeader(s);
    var (mask, s) :- GetUint(4, s);
    var (hash, s) :- GetBytes(32, s);
    if !ValidMask(mask) then Err(InvalidConfigMask)
    else
      var (count, s) :- GetByte(s);
      var (keyCount, s) :- GetByte(s);
      if count > 64 || keyCount > 64 || header.signers > 12 then Err(LimitExceeded)
      else Ok((V1Head(header, mask, hash, count, keyCount), s))
  }

  ghost predicate V1HeadShape(d: V1Head) {
    && |d.hash| == 32 && ValidMask(d.mask)
    && d.count <= 64 && d.keyCount <= 64 && d.header.signers <= 12
  }

  lemma TwoCounts(a: Byte, b: Byte, rest: Bytes)
    ensures GetByte([a, b] + rest) == Ok((a, [b] + rest)) && GetByte([b] + rest) == Ok((b, rest))
  {
    assert ([a, b] + rest)[1..] == [b] + rest && ([b] + rest)[1..] == rest;
  }

  lemma GetPutV1Head(d: V1Head, rest: Bytes)
    requires V1HeadShape(d)
    ensures GetV1Head(PutV1Head(d, rest)) == Ok((d, rest))
  {
    var s4 := [d.count, d.keyCount] + rest;
    var s3 := d.hash + s4;
    var s2 := PutUint(4, d.mask, s3);
    var s1 := PutHeader(d.header, s2);
    GetPutBytes([V1_MARKER], s1);
    HeaderIsCanonical(s1, d.header, s2);
    assert Power256(4) > 32;
    GetPutUint(4, d.mask, s3);
    GetPutBytes(d.hash, s4);
    TwoCounts(d.count, d.keyCount, rest);
  }

  lemma PutGetV1Head(s: Bytes)
    requires GetV1Head(s).Ok? && s[0] == V1_MARKER
    ensures var (d, rest) := GetV1Head(s).value; V1HeadShape(d) && s == PutV1Head(d, rest)
  {
    assert s == [s[0]] + s[1..];
    var (header, s2) := GetHeader(s[1..]).value;
    HeaderIsCanonical(s[1..], header, s2);
    PutGetUint(4, s2);
    var (mask, s3) := GetUint(4, s2).value;
    var (hash, s4) := GetBytes(32, s3).value;
    assert s3 == hash + s4;
    TwoBytes(s4);
  }

  lemma TwoBytes(s: Bytes)
    requires |s| >= 2
    ensures s == [s[0], s[1]] + s[1..][1..]
  {
  }

  // Keys, configuration, instructions and signatures.
  function PutV1Tail(tx: Transaction, c: Config, rest: Bytes): Bytes {
    PutMany(PutChunk, tx.message.keys,
            PutConfig(c,
                      PutMany(PutFrame, FramesOf(tx.message.instructions),
                              PutPayloads(tx.message.instructions, PutMany(PutChunk, tx.signatures, rest)))))
  }

  function GetV1Tail(d: V1Head, s: Bytes): Parse<Transaction> {
    var (keys, s) :- GetMany(d.keyCount, GetKey, s);
    var (c, s) :- GetConfig(d.mask, s);
    var (fs, s) :- GetMany(d.count, GetFrame, s);
    var (ixs, s) :- GetPayloads(fs, s);
    var (sigs, s) :- GetMany(d.header.signers, GetSignature, s);
    Ok((Transaction(V1, sigs, Message(d.header, keys, d.hash, ixs, [], Some(c))), s))
  }

  ghost predicate V1TailShape(d: V1Head, tx: Transaction) {
    var m := tx.message;
    && tx.version == V1 && m.header == d.header && m.hash == d.hash && m.lookups == []
    && |m.keys| == d.keyCount && All(IsKey, m.keys)
    && m.config.Some? && ConfigShape(m.config.value) && MaskOf(m.config.value) == d.mask
    && |m.instructions| == d.count && All(FrameShape, FramesOf(m.instructions))
    && |tx.signatures| == d.header.signers && All(IsSignature, tx.signatures)
  }

  lemma PutGetV1Tail(d: V1Head, s: Bytes)
    requires V1HeadShape(d) && GetV1Tail(d, s).Ok?
    ensures var (tx, rest) := GetV1Tail(d, s).value;
            V1TailShape(d, tx) && s == PutV1Tail(tx, tx.message.config.value, rest)
  {
    ChunksAreLawful();
    FramesAreLawful();
    var (keys, s1) := GetMany(d.keyCount, GetKey, s).value;
    ManyIsCanonical(PutChunk, GetKey, IsKey, d.keyCount, s, keys, s1);
    PutGetConfig(d.mask, s1);
    var (c, s2) := GetConfig(d.mask, s1).value;
    var (fs, s3) := GetMany(d.count, GetFrame, s2).value;
    ManyIsCanonical(PutFrame, GetFrame, FrameShape, d.count, s2, fs, s3);
    PutGetPayloads(fs, s3);
    var (ixs, s4) := GetPayloads(fs, s3).value;
    var (sigs, rest) := GetMany(d.header.signers, GetSignature, s4).value;
    ManyIsCanonical(PutChunk, GetSignature, IsSignature, d.header.signers, s4, sigs, rest);
  }

  lemma GetPutV1Tail(d: V1Head, tx: Transaction, rest: Bytes)
    requires V1HeadShape(d) && V1TailShape(d, tx)
    ensures GetV1Tail(d, PutV1Tail(tx, tx.message.config.value, rest)) == Ok((tx, rest))
  {
    ChunksAreLawful();
    FramesAreLawful();
    var m := tx.message;
    var s4 := PutMany(PutChunk, tx.signatures, rest);
    var s3 := PutPayloads(m.instructions, s4);
    var s2 := PutMany(PutFrame, FramesOf(m.instructions), s3);
    var s1 := PutConfig(m.config.value, s2);
    ManyIsCanonical(PutChunk, GetKey, IsKey, d.keyCount, PutMany(PutChunk, m.keys, s1), m.keys, s1);
    GetPutConfig(m.config.value, s2);
    ManyIsCanonical(PutFrame, GetFrame, FrameShape, d.count, s2, FramesOf(m.instructions), s3);
    GetPutPayloads(m.instructions, s4);
    ManyIsCanonical(PutChunk, GetSignature, IsSignature, d.header.signers, s4, tx.signatures, rest);
  }

  function HeadOf(tx: Transaction, c: Config): V1Head {
    var m := tx.message;
    V1Head(m.header, MaskOf(c), m.hash, |m.instructions| % 256, |m.keys| % 256)
  }

  function PutV1(tx: Transaction, rest: Bytes): Bytes {
    var c := if tx.message.config.Some? then tx.message.config.value else Config(None, None, None, None);
    PutV1Head(HeadOf(tx, c), PutV1Tail(tx, c, rest))
  }

  function GetV1(s: Bytes): Parse<Transaction> {
    var (d, t) :- GetV1Head(s);
    var (tx, rest) :- GetV1Tail(d, t);
    if |s| - |rest| > V1_SIZE_LIMIT then Err(TooLong) else Ok((tx, rest))
  }

  ghost predicate V1Shape(tx: Transaction) {
    var m := tx.message;
    && tx.version == V1 && |m.hash| == 32 && m.lookups == []
    && |m.keys| <= 64 && All(IsKey, m.keys)
    && m.config.Some? && ConfigShape(m.config.value)
    && |m.instructions| <= 64 && All(FrameShape, FramesOf(m.instructions))
    && |tx.signatures| == m.header.signers <= 12 && All(IsSignature, tx.signatures)
  }

  lemma HeadOfTail(d: V1Head, tx: Transaction)
    requires V1HeadShape(d) && V1TailShape(d, tx)
    ensures V1Shape(tx) && HeadOf(tx, tx.message.config.value) == d
  {
  }

  lemma PutGetV1(s: Bytes)
    requires s != [] && s[0] == V1_MARKER && GetV1(s).Ok?
    ensures var (tx, rest) := GetV1(s).value; V1Shape(tx) && s == PutV1(tx, rest) && |s| - |rest| <= V1_SIZE_LIMIT
  {
    PutGetV1Head(s);
    var (d, t) := GetV1Head(s).value;
    PutGetV1Tail(d, t);
    var (tx, rest) := GetV1Tail(d, t).value;
    HeadOfTail(d, tx);
  }

  lemma MasksAreValid(c: Config)
    ensures ValidMask(MaskOf(c))
  {
    MaskBits(c.priorityFee.Some?, c.unitLimit.Some?, c.dataLimit.Some?, c.heapSize.Some?);
  }

  lemma GetPutV1(tx: Transaction, rest: Bytes)
    requires V1Shape(tx) && |PutV1(tx, rest)| - |rest| <= V1_SIZE_LIMIT
    ensures GetV1(PutV1(tx, rest)) == Ok((tx, rest))
  {
    var c := tx.message.config.value;
    MasksAreValid(c);
    var d := HeadOf(tx, c);
    assert V1HeadShape(d) && V1TailShape(d, tx);
    GetPutV1Head(d, PutV1Tail(tx, c, rest));
    GetPutV1Tail(d, tx, rest);
  }

  lemma V1IsMarked(tx: Transaction, rest: Bytes)
    ensures PutV1(tx, rest) != [] && PutV1(tx, rest)[0] == V1_MARKER
  {
  }

  // ----- Semantic checks, made once the whole transaction has been read -----

  function LookupAccounts(ls: seq<Lookup>): nat {
    if ls == [] then 0 else |ls[0].writable| + |ls[0].readonly| + LookupAccounts(ls[1..])
  }

  function AccountCount(m: Message): nat {
    |m.keys| + LookupAccounts(m.lookups)
  }

  predicate HeaderFits(m: Message) {
    && m.header.signers <= |m.keys|
    && m.header.readonlySigned < m.header.signers
    && m.header.readonlyUnsigned <= |m.keys| - m.header.signers
  }

  predicate NonemptyLookup(l: Lookup) {
    |l.writable| + |l.readonly| > 0
  }

  predicate InstructionFits(m: Message, ix: Instruction) {
    0 < ix.program < |m.keys| && forall i :: 0 <= i < |ix.accounts| ==> ix.accounts[i] < AccountCount(m)
  }

  predicate LookupsNonempty(m: Message) {
    forall i :: 0 <= i < |m.lookups| ==> NonemptyLookup(m.lookups[i])
  }

  predicate InstructionsFit(m: Message) {
    forall i :: 0 <= i < |m.instructions| ==> InstructionFits(m, m.instructions[i])
  }

  predicate Sanitized(tx: Transaction) {
    var m := tx.message;
    && HeaderFits(m) && (tx.version == V1 ==> Distinct(m.keys))
    && LookupsNonempty(m) && AccountCount(m) <= 256 && InstructionsFit(m)
  }

  // The first check that fails, in the order they are made.
  function Check(tx: Transaction): Result<(), Error> {
    var m := tx.message;
    if !HeaderFits(m) then Err(InvalidHeader)
    else if tx.version == V1 && !Distinct(m.keys) then Err(DuplicateAccounts)
    else if !LookupsNonempty(m) then Err(EmptyLookup)
    else if AccountCount(m) > 256 then Err(TooManyAccounts)
    else if !InstructionsFit(m) then Err(InvalidInstruction)
    else Ok(())
  }

  lemma CheckIsSanitized(tx: Transaction)
    ensures Check(tx).Ok? <==> Sanitized(tx)
  {
  }

  // ----- Whole transactions -----

  function Put(tx: Transaction, rest: Bytes): Bytes {
    if tx.version == V1 then PutV1(tx, rest) else PutLegacy(tx, rest)
  }

  /** The canonical encoding of a transaction. */
  function Encode(tx: Transaction): Bytes {
    Put(tx, [])
  }

  /** The transactions that exist: every field in its range, and all semantic checks passed. */
  ghost predicate Valid(tx: Transaction) {
    && (if tx.version == V1 then V1Shape(tx) && |Encode(tx)| <= V1_SIZE_LIMIT else LegacyShape(tx))
    && Sanitized(tx)
  }

  function Get(s: Bytes): Parse<Transaction>
    requires s != []
  {
    if s[0] == V1_MARKER then GetV1(s) else GetLegacy(s)
  }

  function DecodeAt(data: Bytes, offset: int, requireComplete: bool): Result<(Transaction, int), Error> {
    if offset < 0 || offset >= |data| then Err(InvalidOffset)
    else
      var s := data[offset..];
      var (tx, rest) :- Get(s);
      var _ :- Check(tx);
      if requireComplete && rest != [] then Err(TrailingBytes)
      else Ok((tx, |s| - |rest|))
  }
}
