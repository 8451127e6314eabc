/**
 What the checks of a decoded transaction mean: the accounts that its message resolves to, the roles of
 its keys, and the indexes of its instructions.
 */
module WireAccounts {
  import opened Prelude
  import opened WireFormat
  import opened WireTransactions

  // An account of a message: one of its own keys, or an entry of an address table.
  datatype Account = Static(key: Bytes) | Loaded(table: Bytes, index: Byte)

  function StaticAccounts(keys: seq<Bytes>): (r: seq<Account>)
    ensures |r| == |keys| && forall i :: 0 <= i < |r| ==> r[i] == Static(keys[i])
  {
    seq(|keys|, i requires 0 <= i < |keys| => Static(keys[i]))
  }

  function FromTable(table: Bytes, indexes: Bytes): (r: seq<Account>)
    ensures |r| == |indexes| && forall i :: 0 <= i < |r| ==> r[i] == Loaded(table, indexes[i])
  {
    seq(|indexes|, i requires 0 <= i < |indexes| => Loaded(table, indexes[i]))
  }

  function Writable(ls: seq<Lookup>): seq<Account> {
    if ls == [] then [] else FromTable(ls[0].key, ls[0].writable) + Writable(ls[1..])
  }

  function Readonly(ls: seq<Lookup>): seq<Account> {
    if ls == [] then [] else FromTable(ls[0].key, ls[0].readonly) + Readonly(ls[1..])
  }

  /** The accounts that indexes of instructions refer to: keys, loaded writable, loaded readonly accounts. */
  function Resolved(m: Message): seq<Account> {
    StaticAccounts(m.keys) + Writable(m.lookups) + Readonly(m.lookups)
  }

  lemma {:induction false} LookupsResolve(ls: seq<Lookup>)
    ensures |Writable(ls)| + |Readonly(ls)| == LookupAccounts(ls)
  {
    if ls != [] {
      LookupsResolve(ls[1..]);
    }
  }

  /** The number of accounts that is checked is that of the accounts the message resolves to. */
  lemma CountIsResolved(m: Message)
    ensures AccountCount(m) == |Resolved(m)|
  {
    LookupsResolve(m.lookups);
  }

  // ----- Roles -----

  // Signers come first, the writable ones before the others; then the same without signatures.
  datatype Roles = Roles(signersWritable: nat, signersReadonly: nat, writable: nat, readonly: nat)

  predicate HasRoles(m: Message, r: Roles) {
    && r.signersWritable + r.signersReadonly == m.header.signers
    && r.signersReadonly == m.header.readonlySigned && r.readonly == m.header.readonlyUnsigned
    && r.signersWritable + r.signersReadonly + r.writable + r.readonly == |m.keys|
  }

  /** The header divides the keys into the four roles, and the first key pays the fee: it signs and is writable. */
  ghost predicate Divides(m: Message) {
    exists r :: HasRoles(m, r) && r.signersWritable > 0
  }

  lemma HeaderDivides(m: Message)
    ensures HeaderFits(m) <==> Divides(m)
  {
    if HeaderFits(m) {
      assert HasRoles(m, Roles(m.header.signers - m.header.readonlySigned, m.header.readonlySigned,
                               |m.keys| - m.header.signers - m.header.readonlyUnsigned, m.header.readonlyUnsigned));
    }
  }

  // ----- Instructions -----

  /** The program is one of the message's own keys, not the payer, and every index names a resolved account. */
  predicate NamesAccounts(m: Message, ix: Instruction) {
    && 0 < ix.program < |Resolved(m)| && Resolved(m)[ix.program].Static?
    && forall i :: 0 <= i < |ix.accounts| ==> ix.accounts[i] < |Resolved(m)|
  }

  lemma {:induction false} LoadedIsNotStatic(ls: seq<Lookup>, i: nat)
    ensures i < |Writable(ls)| ==> Writable(ls)[i].Loaded?
    ensures i < |Readonly(ls)| ==> Readonly(ls)[i].Loaded?
  {
    if ls != [] {
      LoadedIsNotStatic(ls[1..], if i < |ls[0].writable| then 0 else i - |ls[0].writable|);
      LoadedIsNotStatic(ls[1..], if i < |ls[0].readonly| then 0 else i - |ls[0].readonly|);
    }
  }

  lemma StaticExactly(m: Message, i: nat)
    requires i < |Resolved(m)|
    ensures Resolved(m)[i].Static? <==> i < |m.keys|
  {
    var n := |m.keys|;
    if i >= n + |Writable(m.lookups)| {
      LoadedIsNotStatic(m.lookups, i - n - |Writable(m.lookups)|);
    } else if i >= n {
      LoadedIsNotStatic(m.lookups, i - n);
    }
  }

  lemma FitsExactly(m: Message, ix: Instruction)
    ensures InstructionFits(m, ix) <==> NamesAccounts(m, ix)
  {
    CountIsResolved(m);
    if ix.program < |Resolved(m)| {
      StaticExactly(m, ix.program);
    }
  }

  // ----- All checks -----

  // A lookup loads something.
  predicate LoadsSome(l: Lookup) {
    FromTable(l.key, l.writable) + FromTable(l.key, l.readonly) != []
  }

  predicate AllLoadSome(m: Message) {
    forall i :: 0 <= i < |m.lookups| ==> LoadsSome(m.lookups[i])
  }

  predicate AllName(m: Message) {
    forall i :: 0 <= i < |m.instructions| ==> NamesAccounts(m, m.instructions[i])
  }

  /** What is asked of a transaction, in the order in which it is checked. */
  ghost predicate Acceptable(tx: Transaction) {
    var m := tx.message;
    && Divides(m) && (tx.version == V1 ==> Distinct(m.keys)) && AllLoadSome(m) && |Resolved(m)| <= 256 && AllName(m)
  }

  lemma LookupsLoadSome(m: Message)
    ensures LookupsNonempty(m) <==> AllLoadSome(m)
  {
    forall i | 0 <= i < |m.lookups|
      ensures NonemptyLookup(m.lookups[i]) <==> LoadsSome(m.lookups[i])
    {
      var l := m.lookups[i];
      assert |FromTable(l.key, l.writable) + FromTable(l.key, l.readonly)| == |l.writable| + |l.readonly|;
    }
  }

  lemma InstructionsName(m: Message)
    ensures InstructionsFit(m) <==> AllName(m)
  {
    forall i | 0 <= i < |m.instructions|
      ensures InstructionFits(m, m.instructions[i]) <==> NamesAccounts(m, m.instructions[i])
    {
      FitsExactly(m, m.instructions[i]);
    }
  }

  /** The checks accept exactly the acceptable transactions, and report the first demand that is not met. */
  lemma CheckExactly(tx: Transaction)
    ensures var m := tx.message;
            && (Check(tx).Ok? <==> Acceptable(tx))
            && (Check(tx) == Err(InvalidHeader) <==> !Divides(m))
            && (Check(tx) == Err(DuplicateAccounts) <==> Divides(m) && tx.version == V1 && !Distinct(m.keys))
            && (Check(tx) == Err(EmptyLookup) <==> Divides(m) && (tx.version == V1 ==> Distinct(m.keys)) && !AllLoadSome(m))
            && (Check(tx) == Err(TooManyAccounts) <==>
                Divides(m) && (tx.version == V1 ==> Distinct(m.keys)) && AllLoadSome(m) && |Resolved(m)| > 256)
  {
    var m := tx.message;
    CheckIsSanitized(tx);
    HeaderDivides(m);
    LookupsLoadSome(m);
    CountIsResolved(m);
    InstructionsName(m);
  }

  // ----- The optional settings of a V1 transaction -----

  /** A mask is valid exactly if it is that of some settings. */
  lemma MaskExactly(mask: nat)
    ensures ValidMask(mask) <==> exists c :: MaskOf(c) == mask
  {
    if ValidMask(mask) {
      var some: Option<nat> := Some(0);
      BitsMask(mask);
      assert MaskOf(Config(if mask % 4 != 0 then some else None, if mask / 4 % 2 == 1 then some else None,
                           if mask / 8 % 2 == 1 then some else None, if mask / 16 % 2 == 1 then some else None)) == mask;
    }
  }

  /** A heap size is 32 to 256 KiB in whole KiB. */
  lemma HeapExactly(heap: nat)
    ensures ValidHeap(Some(heap)) <==> exists kib :: 32 <= kib <= 256 && heap == kib * 1024
  {
    if ValidHeap(Some(heap)) {
      assert heap == heap / 1024 * 1024;
    }
  }
}
