/**
 The decoder as the program runs it: a reader whose position advances over the input, and loops
 that push what they read. Each method returns what the corresponding `Get` function says and
 leaves the position at what that function leaves unread.
 */
module WireDecoder {
  import opened Prelude
  import opened WireFormat
  import opened WireTransactions
  import opened WireRoundTrip
  import opened WireAccounts

  class Reader {
    const data: Bytes
    var pos: nat

    constructor (data: Bytes, offset: nat)
      requires offset <= |data|
      ensures this.data == data && pos == offset && Valid()
    {
      this.data := data;
      pos := offset;
    }

    ghost predicate Valid()
      reads this
    {
      pos <= |data|
    }

    ghost function Rest(): Bytes
      requires Valid()
      reads this
    {
      data[pos..]
    }

    // The outcome `r`, with the reader as it is now, is what `parse` says.
    ghost predicate Did<T>(r: Result<T, Error>, parse: Parse<T>)
      reads this
    {
      Valid() && match parse {
        case Ok((v, rest)) => r == Ok(v) && Rest() == rest
        case Err(e) => r == Err(e)
      }
    }

    method Take(n: nat) returns (r: Result<Bytes, Error>)
      requires Valid()
      modifies this
      ensures Did(r, GetBytes(n, old(Rest())))
    {
      if pos + n > |data| {
        return Err(Truncated);
      }
      r := Ok(data[pos..pos + n]);
      assert data[pos..pos + n] == data[pos..][..n];
      assert data[pos + n..] == data[pos..][n..];
      pos := pos + n;
    }

    method Byte() returns (r: Result<Byte, Error>)
      requires Valid()
      modifies this
      ensures Did(r, GetByte(old(Rest())))
    {
      var b :- Take(1);
      r := Ok(b[0]);
    }

    method Uint(n: nat) returns (r: Result<nat, Error>)
      requires Valid()
      modifies this
      ensures Did(r, GetUint(n, old(Rest())))
    {
      var bytes :- Take(n);
      var value: nat := 0;
      var i := n;
      while i > 0
        invariant 0 <= i <= n
        invariant value == UintOf(bytes[i..])
      {
        i := i - 1;
        assert bytes[i..][1..] == bytes[i + 1..];
        value := value * 256 + bytes[i];
      }
      assert bytes[0..] == bytes;
      r := Ok(value);
    }

    // The bits of successive bytes do not overlap, so joining them is adding.
    method Short() returns (r: Result<nat, Error>)
      requires Valid()
      modifies this
      ensures Did(r, GetShort(old(Rest())))
    {
      var value: nat := 0;
      for i := 0 to 3
        invariant Valid()
        invariant GetShort(old(Rest())) == GetShortFrom(i, value, Rest())
      {
        var b :- Byte();
        if i == 2 && b > 3 {
          return Err(InvalidShort);
        }
        value := value + b % 128 * Power128(i);
        if b < 128 {
          if i > 0 && b == 0 {
            return Err(NoncanonicalShort);
          }
          return Ok(value);
        }
      }
      r := Err(InvalidShort);
    }

    method Blob() returns (r: Result<Bytes, Error>)
      requires Valid()
      modifies this
      ensures Did(r, GetBlob(old(Rest())))
    {
      var n :- Short();
      r := Take(n);
    }

    method Header() returns (r: Result<Header, Error>)
      requires Valid()
      modifies this
      ensures Did(r, GetHeader(old(Rest())))
    {
      var b :- Take(3);
      r := Ok(WireFormat.Header(b[0], b[1], b[2]));
    }

    method Keys(n: nat) returns (r: Result<seq<Bytes>, Error>)
      requires Valid()
      modifies this
      ensures Did(r, GetMany(n, GetKey, old(Rest())))
    {
      var keys: seq<Bytes> := [];
      for i := 0 to n
        invariant Valid()
        invariant GetMany(n, GetKey, old(Rest())) == After(keys, GetMany(n - i, GetKey, Rest()))
      {
        AfterNext(keys, n - i, GetKey, Rest());
        var key :- Take(32);
        keys := keys + [key];
      }
      r := Ok(keys);
    }

    method Signatures(n: nat) returns (r: Result<seq<Bytes>, Error>)
      requires Valid()
      modifies this
      ensures Did(r, GetMany(n, GetSignature, old(Rest())))
    {
      var sigs: seq<Bytes> := [];
      for i := 0 to n
        invariant Valid()
        invariant GetMany(n, GetSignature, old(Rest())) == After(sigs, GetMany(n - i, GetSignature, Rest()))
      {
        AfterNext(sigs, n - i, GetSignature, Rest());
        var sig :- Take(64);
        sigs := sigs + [sig];
      }
      r := Ok(sigs);
    }

    method Instruction() returns (r: Result<WireFormat.Instruction, Error>)
      requires Valid()
      modifies this
      ensures Did(r, GetInstruction(old(Rest())))
    {
      var program :- Byte();
      var accounts :- Blob();
      var payload :- Blob();
      r := Ok(WireFormat.Instruction(program, accounts, payload));
    }

    method Instructions(n: nat) returns (r: Result<seq<WireFormat.Instruction>, Error>)
      requires Valid()
      modifies this
      ensures Did(r, GetMany(n, GetInstruction, old(Rest())))
    {
      var ixs: seq<WireFormat.Instruction> := [];
      for i := 0 to n
        invariant Valid()
        invariant GetMany(n, GetInstruction, old(Rest())) == After(ixs, GetMany(n - i, GetInstruction, Rest()))
      {
        AfterNext(ixs, n - i, GetInstruction, Rest());
        var ix :- Instruction();
        ixs := ixs + [ix];
      }
      r := Ok(ixs);
    }

    method Lookup() returns (r: Result<WireFormat.Lookup, Error>)
      requires Valid()
      modifies this
      ensures Did(r, GetLookup(old(Rest())))
    {
      var key :- Take(32);
      var writable :- Blob();
      var readonly :- Blob();
      r := Ok(WireFormat.Lookup(key, writable, readonly));
    }

    method Lookups(n: nat) returns (r: Result<seq<WireFormat.Lookup>, Error>)
      requires Valid()
      modifies this
      ensures Did(r, GetMany(n, GetLookup, old(Rest())))
    {
      var lookups: seq<WireFormat.Lookup> := [];
      for i := 0 to n
        invariant Valid()
        invariant GetMany(n, GetLookup, old(Rest())) == After(lookups, GetMany(n - i, GetLookup, Rest()))
      {
        AfterNext(lookups, n - i, GetLookup, Rest());
        var lookup :- Lookup();
        lookups := lookups + [lookup];
      }
      r := Ok(lookups);
    }

    method ReadFrame() returns (r: Result<Frame, Error>)
      requires Valid()
      modifies this
      ensures Did(r, GetFrame(old(Rest())))
    {
      var program :- Byte();
      var accounts :- Byte();
      var length :- Uint(2);
      r := Ok(Frame(program, accounts, length));
    }

    method Frames(n: nat) returns (r: Result<seq<Frame>, Error>)
      requires Valid()
      modifies this
      ensures Did(r, GetMany(n, GetFrame, old(Rest())))
    {
      var frames: seq<Frame> := [];
      for i := 0 to n
        invariant Valid()
        invariant GetMany(n, GetFrame, old(Rest())) == After(frames, GetMany(n - i, GetFrame, Rest()))
      {
        AfterNext(frames, n - i, GetFrame, Rest());
        var frame :- ReadFrame();
        frames := frames + [frame];
      }
      r := Ok(frames);
    }

    method Payloads(frames: seq<Frame>) returns (r: Result<seq<WireFormat.Instruction>, Error>)
      requires Valid()
      modifies this
      ensures Did(r, GetPayloads(frames, old(Rest())))
    {
      var ixs: seq<WireFormat.Instruction> := [];
      assert frames[0..] == frames;
      for i := 0 to |frames|
        invariant Valid()
        invariant GetPayloads(frames, old(Rest())) == After(ixs, GetPayloads(frames[i..], Rest()))
      {
        PayloadsNext(ixs, frames, i, Rest());
        var accounts :- Take(frames[i].accounts);
        var payload :- Take(frames[i].data);
        ixs := ixs + [WireFormat.Instruction(frames[i].program, accounts, payload)];
      }
      r := Ok(ixs);
    }

    method OptionalUint(present: bool, n: nat) returns (r: Result<Option<nat>, Error>)
      requires Valid()
      modifies this
      ensures Did(r, GetOptional(present, n, old(Rest())))
    {
      if !present {
        return Ok(None);
      }
      var v :- Uint(n);
      r := Ok(Some(v));
    }

    method Config(mask: nat) returns (r: Result<Config, Error>)
      requires Valid()
      modifies this
      ensures Did(r, GetConfig(mask, old(Rest())))
    {
      var fee :- OptionalUint(mask % 4 != 0, 8);
      var units :- OptionalUint(mask / 4 % 2 == 1, 4);
      var loaded :- OptionalUint(mask / 8 % 2 == 1, 4);
      var heap :- OptionalUint(mask / 16 % 2 == 1, 4);
      if !ValidHeap(heap) {
        return Err(InvalidHeapSize);
      }
      r := Ok(WireFormat.Config(fee, units, loaded, heap));
    }

    method Head() returns (r: Result<V1Head, Error>)
      requires Valid()
      modifies this
      ensures Did(r, GetV1Head(old(Rest())))
    {
      var _ :- Take(1);
      var header :- Header();
      var mask :- Uint(4);
      var hash :- Take(32);
      if !ValidMask(mask) {
        return Err(InvalidConfigMask);
      }
      var count :- Byte();
      var keyCount :- Byte();
      if count > 64 || keyCount > 64 || header.signers > 12 {
        return Err(LimitExceeded);
      }
      r := Ok(V1Head(header, mask, hash, count, keyCount));
    }

    method V1() returns (r: Result<Transaction, Error>)
      requires Valid()
      modifies this
      ensures Did(r, GetV1(old(Rest())))
    {
      var offset := pos;
      var d :- Head();
      ghost var s := Rest();
      var keys :- Keys(d.keyCount);
      var config :- Config(d.mask);
      var frames :- Frames(d.count);
      var instructions :- Payloads(frames);
      var signatures :- Signatures(d.header.signers);
      var tx := Transaction(WireFormat.V1, signatures, Message(d.header, keys, d.hash, instructions, [], Some(config)));
      assert GetV1Tail(d, s) == Ok((tx, Rest()));
      if pos - offset > V1_SIZE_LIMIT {
        return Err(TooLong);
      }
      r := Ok(tx);
    }

    method VersionedHeader() returns (r: Result<(Version, WireFormat.Header), Error>)
      requires Valid()
      modifies this
      ensures Did(r, GetVersionedHeader(old(Rest())))
    {
      var first :- Byte();
      if first >= 128 {
        if first != 128 {
          return Err(UnknownVersion);
        }
        var header :- Header();
        return Ok((V0, header));
      }
      var b :- Take(2);
      r := Ok((WireFormat.Legacy, WireFormat.Header(first, b[0], b[1])));
    }

    method Body(version: Version, header: WireFormat.Header) returns (r: Result<Message, Error>)
      requires Valid()
      modifies this
      ensures Did(r, GetBody(version, header, old(Rest())))
    {
      var keyCount :- Short();
      if keyCount > 256 {
        return Err(TooManyKeys);
      }
      var keys :- Keys(keyCount);
      var hash :- Take(32);
      var count :- Short();
      var instructions :- Instructions(count);
      var lookups: seq<WireFormat.Lookup> := [];
      if version == V0 {
        var n :- Short();
        lookups :- Lookups(n);
      }
      r := Ok(Message(header, keys, hash, instructions, lookups, None));
    }

    method Legacy() returns (r: Result<Transaction, Error>)
      requires Valid()
      modifies this
      ensures Did(r, GetLegacy(old(Rest())))
    {
      var sigCount :- Short();
      if sigCount > 127 {
        return Err(TooManySignatures);
      }
      var signatures :- Signatures(sigCount);
      var versioned :- VersionedHeader();
      var message :- Body(versioned.0, versioned.1);
      if |signatures| != message.header.signers {
        return Err(SignatureMismatch);
      }
      r := Ok(Transaction(versioned.0, signatures, message));
    }
  }

  // What a list parser returns once `done` has been read and `more` is still to come.
  function After<T>(done: seq<T>, more: Parse<seq<T>>): (r: Parse<seq<T>>)
    ensures done == [] ==> r == more
    ensures more.Ok? && more.value.0 == [] ==> r == Ok((done, more.value.1))
  {
    match more
    case Ok((xs, rest)) =>
      assert done == [] ==> done + xs == xs;
      assert xs == [] ==> done + xs == done;
      Ok((done + xs, rest))
    case Err(e) => Err(e)
  }

  lemma AfterNext<T>(done: seq<T>, n: nat, get: Bytes -> Parse<T>, s: Bytes)
    requires n > 0
    ensures After(done, GetMany(n, get, s)) ==
            match get(s)
            case Ok((x, t)) => After(done + [x], GetMany(n - 1, get, t))
            case Err(e) => Err(e)
  {
    if get(s).Ok? {
      var (x, t) := get(s).value;
      var more := GetMany(n - 1, get, t);
      assert more.Ok? ==> done + ([x] + more.value.0) == done + [x] + more.value.0;
    }
  }

  lemma PayloadsNext(done: seq<WireFormat.Instruction>, frames: seq<Frame>, i: nat, s: Bytes)
    requires i < |frames|
    ensures After(done, GetPayloads(frames[i..], s)) ==
            match GetBytes(frames[i].accounts, s)
            case Err(e) => Err(e)
            case Ok((accounts, t)) =>
              match GetBytes(frames[i].data, t)
              case Err(e) => Err(e)
              case Ok((payload, u)) =>
                After(done + [WireFormat.Instruction(frames[i].program, accounts, payload)], GetPayloads(frames[i + 1..], u))
  {
    assert frames[i..][1..] == frames[i + 1..];
    if GetBytes(frames[i].accounts, s).Ok? {
      var (accounts, t) := GetBytes(frames[i].accounts, s).value;
      if GetBytes(frames[i].data, t).Ok? {
        var (payload, u) := GetBytes(frames[i].data, t).value;
        var more := GetPayloads(frames[i + 1..], u);
        if more.Ok? {
          Regroup(done, [WireFormat.Instruction(frames[i].program, accounts, payload)], more.value.0);
        }
      }
    }
  }

  // ----- The checks on a transaction that has been read -----

  method CountAccounts(m: Message) returns (r: Result<nat, Error>)
    ensures r == if LookupsNonempty(m) then Ok(AccountCount(m)) else Err(EmptyLookup)
  {
    var accountCount := |m.keys|;
    for i := 0 to |m.lookups|
      invariant forall j :: 0 <= j < i ==> NonemptyLookup(m.lookups[j])
      invariant accountCount + LookupAccounts(m.lookups[i..]) == AccountCount(m)
    {
      assert m.lookups[i..][1..] == m.lookups[i + 1..];
      var count := |m.lookups[i].writable| + |m.lookups[i].readonly|;
      if count == 0 {
        assert !NonemptyLookup(m.lookups[i]);
        return Err(EmptyLookup);
      }
      accountCount := accountCount + count;
    }
    r := Ok(accountCount);
  }

  method Checks(tx: Transaction) returns (r: Result<(), Error>)
    ensures r == Check(tx) && (r.Ok? <==> Acceptable(tx))
  {
    CheckExactly(tx);
    var m := tx.message;
    if m.header.signers > |m.keys| || m.header.readonlySigned >= m.header.signers
       || m.header.readonlyUnsigned > |m.keys| - m.header.signers {
      return Err(InvalidHeader);
    }
    if tx.version == V1 && |(set k | k in m.keys)| != |m.keys| {
      DistinctIffSetSize(m.keys);
      return Err(DuplicateAccounts);
    }
    DistinctIffSetSize(m.keys);
    var accountCount :- CountAccounts(m);
    if accountCount > 256 {
      return Err(TooManyAccounts);
    }
    for i := 0 to |m.instructions|
      invariant forall j :: 0 <= j < i ==> InstructionFits(m, m.instructions[j])
    {
      var ix := m.instructions[i];
      if ix.program == 0 || ix.program >= |m.keys| || exists j :: 0 <= j < |ix.accounts| && ix.accounts[j] >= accountCount {
        assert !InstructionFits(m, ix);
        return Err(InvalidInstruction);
      }
    }
    r := Ok(());
  }

  lemma {:induction false} DistinctIffSetSize<T>(xs: seq<T>)
    ensures |(set x | x in xs)| <= |xs|
    ensures Distinct(xs) <==> |(set x | x in xs)| == |xs|
  {
    if xs != [] {
      var all, tail := set x | x in xs, set x | x in xs[1..];
      DistinctIffSetSize(xs[1..]);
      assert all == tail + {xs[0]};
      if xs[0] in xs[1..] {
        var k :| 0 <= k < |xs[1..]| && xs[1..][k] == xs[0];
        assert xs[k + 1] == xs[0];
        assert all == tail;
      } else {
        assert forall j :: 1 <= j < |xs| ==> xs[j] == xs[1..][j - 1];
        if Distinct(xs[1..]) {
          assert Distinct(xs);
        } else {
          var i, j :| 0 <= i < j < |xs[1..]| && xs[1..][i] == xs[1..][j];
          assert xs[i + 1] == xs[j + 1];
        }
      }
    }
  }

  ghost predicate Stands(data: Bytes, offset: int, tx: Transaction, length: int) {
    Valid(tx) && Acceptable(tx) && 0 <= offset && 0 < length <= |data| - offset && data[offset..offset + length] == Encode(tx)
  }

  lemma DecodedIsAcceptable(data: Bytes, offset: int, requireComplete: bool)
    ensures var r := DecodeAt(data, offset, requireComplete); r.Ok? ==> Stands(data, offset, r.value.0, r.value.1)
  {
    var r := DecodeAt(data, offset, requireComplete);
    if r.Ok? {
      EncodeUndoesDecode(data, offset, requireComplete);
      CheckExactly(r.value.0);
    }
  }

  /** The entry point. Its consequences for callers are spelled out. */
  method Decode(data: Bytes, offset: int, requireComplete: bool) returns (r: Result<(Transaction, int), Error>)
    ensures r == DecodeAt(data, offset, requireComplete)
    ensures r.Ok? ==> Stands(data, offset, r.value.0, r.value.1)
  {
    if offset < 0 || offset >= |data| {
      return Err(InvalidOffset);
    }
    var reader := new Reader(data, offset);
    var tx: Transaction;
    if data[offset] == V1_MARKER {
      tx :- reader.V1();
    } else {
      tx :- reader.Legacy();
    }
    var _ :- Checks(tx);
    if requireComplete && reader.pos != |data| {
      return Err(TrailingBytes);
    }
    r := Ok((tx, reader.pos - offset));
    DecodedIsAcceptable(data, offset, requireComplete);
  }

  ghost predicate Accepts(s: Bytes, tx: Transaction, requireComplete: bool) {
    if requireComplete then s == Encode(tx) else Encode(tx) <= s
  }

  /** The decoder fails only where no valid transaction is encoded. */
  lemma DecodeFailsExactly(data: Bytes, offset: int, requireComplete: bool)
    ensures DecodeAt(data, offset, requireComplete).Err?
            <==> forall tx | Valid(tx) :: offset < 0 || offset >= |data| || !Accepts(data[offset..], tx, requireComplete)
  {
    var r := DecodeAt(data, offset, requireComplete);
    if r.Ok? {
      var (tx, length) := r.value;
      DecodeExactly(data, offset, requireComplete, tx, length);
      assert Accepts(data[offset..], tx, requireComplete);
    } else {
      forall tx | Valid(tx) && 0 <= offset < |data|
        ensures !Accepts(data[offset..], tx, requireComplete)
      {
        DecodeExactly(data, offset, requireComplete, tx, |Encode(tx)|);
      }
    }
  }
}
