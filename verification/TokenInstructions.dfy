/** Instructions of the token programs and of the system program, byte by byte, and what the analysis reads out of them. */
module TokenInstructions {
  import opened Prelude
  import opened WireFormat
  import opened RouteInvocations
  import opened RouteAmounts

  // ----- Transfers -----

  datatype Transfer =
    | Unchecked(source: Account, destination: Account, owner: Account, amount: nat)
    | Checked(source: Account, mint: Account, destination: Account, owner: Account, amount: nat, decimals: Byte)
    | WithFee(source: Account, mint: Account, destination: Account, owner: Account, amount: nat, decimals: Byte, fee: nat)

  function Accounts(t: Transfer): seq<Account> {
    match t
    case Unchecked(source, destination, owner, _) => [source, destination, owner]
    case Checked(source, mint, destination, owner, _, _) => [source, mint, destination, owner]
    case WithFee(source, mint, destination, owner, _, _, _) => [source, mint, destination, owner]
  }

  function Data(t: Transfer): Bytes {
    match t
    case Unchecked(_, _, _, amount) => [3] + LittleEndian(8, amount)
    case Checked(_, _, _, _, amount, decimals) => [12] + LittleEndian(8, amount) + [decimals]
    case WithFee(_, _, _, _, amount, decimals, fee) =>
      [26, 1] + LittleEndian(8, amount) + [decimals] + LittleEndian(8, fee)
  }

  predicate Fits(t: Transfer) {
    t.amount < Power256(8) && (t.WithFee? ==> t.fee < Power256(8))
  }

  /** `b` is the transfer `t`, perhaps with more accounts (further signers) and more data behind. */
  predicate IsTransfer(b: Body, t: Transfer) {
    && (b.program == Token2022 || (b.program == Token && !t.WithFee?))
    && Fits(t) && Accounts(t) <= b.accounts && Data(t) <= b.data
  }

  // What the token program keeps back: nothing, except by the extension of Token 2022, where it is known only if stated.
  function FeeOf(p: Program, t: Transfer): Option<nat> {
    match t
    case Unchecked(_, _, _, _) => Some(0)
    case Checked(_, _, _, _, _, _) => if p == Token2022 then None else Some(0)
    case WithFee(_, _, _, _, _, _, fee) => Some(fee)
  }

  lemma U64At(b: Body, before: Bytes, v: nat)
    requires v < Power256(8) && before + LittleEndian(8, v) <= b.data
    ensures |before| + 8 <= |b.data| && b.U64(|before|) == v
  {
    assert (before + LittleEndian(8, v))[|before|..] == LittleEndian(8, v);
    assert b.data[|before|..|before| + 8] == LittleEndian(8, v);
    UintOfLittleEndian(8, v);
  }

  lemma U64Written(b: Body, offset: nat)
    requires offset + 8 <= |b.data|
    ensures b.U64(offset) < Power256(8) && LittleEndian(8, b.U64(offset)) == b.data[offset..offset + 8]
  {
    LittleEndianUintOf(b.data[offset..offset + 8]);
  }

  lemma TransferIsRead(b: Body, t: Transfer)
    requires IsTransfer(b, t)
    ensures MoveOf(b) == Some(Move(t.source, t.destination, t.amount, FeeOf(b.program, t)))
    ensures t.Unchecked? ==> Named(b) == []
    ensures !t.Unchecked? ==> Named(b) == [Naming(t.source, t.mint), Naming(t.destination, t.mint)]
    ensures b.IsPlain() <==> t.Unchecked?
  {
    assert Data(t)[0] == b.data[0] && |b.data| >= |Data(t)|;
    assert Accounts(t)[0] == b.accounts[0] && Accounts(t)[1] == b.accounts[1] && Accounts(t)[2] == b.accounts[2];
    match t {
      case Unchecked(_, _, _, amount) =>
        U64At(b, [3], amount);
      case Checked(_, _, _, _, amount, decimals) =>
        assert [12] + LittleEndian(8, amount) <= Data(t);
        U64At(b, [12], amount);
      case WithFee(_, _, _, _, amount, decimals, fee) =>
        assert [26, 1] + LittleEndian(8, amount) <= Data(t);
        assert Data(t)[1] == b.data[1];
        U64At(b, [26, 1], amount);
        U64At(b, [26, 1] + LittleEndian(8, amount) + [decimals], fee);
    }
  }

  // The transfer that a body is, if it is one.
  function AsTransfer(b: Body): Option<Transfer> {
    if b.IsChecked() then Some(Checked(b.accounts[0], b.accounts[1], b.accounts[2], b.accounts[3], b.U64(1), b.data[9]))
    else if b.IsWithFee() then
      Some(WithFee(b.accounts[0], b.accounts[1], b.accounts[2], b.accounts[3], b.U64(2), b.data[10], b.U64(11)))
    else if b.IsPlain() then Some(Unchecked(b.accounts[0], b.accounts[1], b.accounts[2], b.U64(1)))
    else None
  }

  lemma UncheckedIsTransfer(b: Body)
    requires b.IsPlain()
    ensures AsTransfer(b).Some? && IsTransfer(b, AsTransfer(b).value)
  {
    var t := AsTransfer(b).value;
    U64Written(b, 1);
    assert Data(t) == b.data[..9];
    assert Accounts(t) == b.accounts[..3];
  }

  lemma CheckedIsTransfer(b: Body)
    requires b.IsChecked()
    ensures AsTransfer(b).Some? && IsTransfer(b, AsTransfer(b).value)
  {
    var t := AsTransfer(b).value;
    U64Written(b, 1);
    assert Data(t) == b.data[..10];
    assert Accounts(t) == b.accounts[..4];
  }

  lemma WithFeeIsTransfer(b: Body)
    requires b.IsWithFee()
    ensures AsTransfer(b).Some? && IsTransfer(b, AsTransfer(b).value)
  {
    var t := AsTransfer(b).value;
    U64Written(b, 2);
    U64Written(b, 11);
    assert Data(t) == b.data[..19];
    assert Accounts(t) == b.accounts[..4];
  }

  lemma ReadIsTransfer(b: Body)
    requires MoveOf(b).Some?
    ensures AsTransfer(b).Some? && IsTransfer(b, AsTransfer(b).value)
  {
    if b.IsChecked() {
      CheckedIsTransfer(b);
    } else if b.IsWithFee() {
      WithFeeIsTransfer(b);
    } else {
      UncheckedIsTransfer(b);
    }
  }

  /** For every body: it is read as a move if and only if it is a transfer, and then as what that transfer moves. */
  lemma MovesExactly(b: Body, m: Move)
    ensures MoveOf(b) == Some(m) <==>
            exists t :: IsTransfer(b, t) && m == Move(t.source, t.destination, t.amount, FeeOf(b.program, t))
  {
    if MoveOf(b) == Some(m) {
      ReadIsTransfer(b);
      TransferIsRead(b, AsTransfer(b).value);
    }
    if t :| IsTransfer(b, t) && m == Move(t.source, t.destination, t.amount, FeeOf(b.program, t)) {
      TransferIsRead(b, t);
    }
  }

  /** What leaves an account by one call, and what reaches it: the fee is kept back from the destination. */
  lemma FlowExactly(b: Body, t: Transfer, a: Account)
    requires IsTransfer(b, t)
    ensures Taken(b, a) == if a == t.source then Exactly(t.amount) else Nothing
    ensures Given(b, a) ==
            if a != t.destination then Nothing
            else if t.WithFee? then if t.fee <= t.amount then Exactly(t.amount - t.fee) else Unknown
            else if t.Checked? && b.program == Token2022 then Unknown
            else Exactly(t.amount)
  {
    TransferIsRead(b, t);
  }

  lemma NoTransferNoFlow(b: Body, a: Account)
    requires forall t :: !IsTransfer(b, t)
    ensures Taken(b, a) == Given(b, a) == Nothing
  {
    if MoveOf(b).Some? {
      ReadIsTransfer(b);
      assert false;
    }
  }

  // ----- Accounts that are set up -----

  /** `b` sets up a token account: with the owner among the accounts, or, in the later two forms, in the data. */
  ghost predicate SetsUp(b: Body, account: Account, mint: Mint) {
    && b.IsToken() && [account, mint] <= b.accounts
    && (b.data == [1] || exists owner: Bytes :: |owner| == 32 && (b.data == [16] + owner || b.data == [18] + owner))
  }

  lemma SetUpIsRead(b: Body, account: Account, mint: Mint)
    ensures SetsUp(b, account, mint) <==> b.IsInitialize() && b.AccountAt(0) == account && b.AccountAt(1) == mint
  {
    if b.IsInitialize() && |b.data| == 33 {
      assert b.data == [b.data[0]] + b.data[1..];
    }
    if |b.accounts| >= 2 {
      assert [b.accounts[0], b.accounts[1]] == b.accounts[..2];
    }
  }

  /** For every body: the mints it names are those of both ends of a checked transfer and of an account it sets up. */
  lemma NamesExactly(b: Body, n: Naming)
    ensures n in Named(b) <==>
            || SetsUp(b, n.account, n.mint)
            || exists t :: IsTransfer(b, t) && !t.Unchecked? && t.mint == n.mint && n.account in {t.source, t.destination}
  {
    SetUpIsRead(b, n.account, n.mint);
    if t :| IsTransfer(b, t) {
      TransferIsRead(b, t);
      TransferSetsNothingUp(b, t);
    } else {
      NoTransferNames(b);
    }
  }

  lemma TransferSetsNothingUp(b: Body, t: Transfer)
    requires IsTransfer(b, t)
    ensures !b.IsInitialize()
  {
    assert Data(t)[0] == b.data[0];
  }

  lemma NoTransferNames(b: Body)
    requires forall t :: !IsTransfer(b, t)
    ensures Named(b) == if b.IsInitialize() then [Naming(b.AccountAt(0), b.AccountAt(1))] else []
  {
    if b.IsChecked() || b.IsWithFee() {
      ReadIsTransfer(b);
      assert false;
    }
  }

  // ----- Payments in lamports -----

  predicate IsSystemTransfer(b: Body, from: Account, to: Account, lamports: nat) {
    && b.program == System && [from, to] <= b.accounts && lamports < Power256(8)
    && b.data == LittleEndian(4, 2) + LittleEndian(8, lamports)
  }

  /** For every body: it is read as a payment if and only if it is a transfer of the system program, of those lamports. */
  lemma PaymentExactly(b: Body, from: Account, to: Account, lamports: nat)
    ensures IsSystemTransfer(b, from, to, lamports) <==>
            Pays(b, from) && b.AccountAt(1) == to && b.U64(4) == lamports
  {
    if IsSystemTransfer(b, from, to, lamports) {
      assert b.data[..4] == LittleEndian(4, 2);
      assert 2 < Power256(4);
      UintOfLittleEndian(4, 2);
      U64At(b, LittleEndian(4, 2), lamports);
      assert [from, to][0] == b.accounts[0] && [from, to][1] == b.accounts[1];
    }
    if Pays(b, from) && b.AccountAt(1) == to && b.U64(4) == lamports {
      LittleEndianUintOf(b.data[..4]);
      U64Written(b, 4);
      assert b.data == b.data[..4] + b.data[4..12];
      assert [from, to] == b.accounts[..2];
    }
  }

  // ----- Sums -----

  function Part(x: Amount): nat {
    if x.Exactly? then x.value else 0
  }

  function Parts(ixs: seq<Invocation>, a: Account, isInput: bool): nat {
    if ixs == [] then 0 else Part(Flow(ixs[0].body, a, isInput)) + Parts(ixs[1..], a, isInput)
  }

  /**
   For every list of invocations: what they take or give is nothing if none does either, unknown if
   one of the parts is, and otherwise the sum of the parts.
   */
  lemma {:induction false} FlowsAddUp(ixs: seq<Invocation>, a: Account, isInput: bool)
    ensures FlowOf(ixs, a, isInput).Nothing? <==> forall k :: 0 <= k < |ixs| ==> Flow(ixs[k].body, a, isInput).Nothing?
    ensures FlowOf(ixs, a, isInput).Unknown? <==> exists k :: 0 <= k < |ixs| && Flow(ixs[k].body, a, isInput).Unknown?
    ensures FlowOf(ixs, a, isInput).Exactly? ==> FlowOf(ixs, a, isInput).value == Parts(ixs, a, isInput)
  {
    if ixs != [] {
      FlowsAddUp(ixs[1..], a, isInput);
      FlowOfSum(ixs[..1], ixs[1..], a, isInput);
      FlowOfOne(ixs[0], a, isInput);
      assert ixs == ixs[..1] + ixs[1..] && ixs[..1] == [ixs[0]];
      HeadAndTail(ixs, a, isInput);
      if FlowOf(ixs[1..], a, isInput).Nothing? {
        NothingAddsNothing(ixs[1..], a, isInput);
      }
    }
  }

  lemma HeadAndTail(ixs: seq<Invocation>, a: Account, isInput: bool)
    requires ixs != []
    ensures (forall k :: 0 <= k < |ixs| ==> Flow(ixs[k].body, a, isInput).Nothing?) <==>
            Flow(ixs[0].body, a, isInput).Nothing? && forall k :: 0 <= k < |ixs[1..]| ==> Flow(ixs[1..][k].body, a, isInput).Nothing?
    ensures (exists k :: 0 <= k < |ixs| && Flow(ixs[k].body, a, isInput).Unknown?) <==>
            Flow(ixs[0].body, a, isInput).Unknown? || exists k :: 0 <= k < |ixs[1..]| && Flow(ixs[1..][k].body, a, isInput).Unknown?
  {
    assert forall k :: 1 <= k < |ixs| ==> ixs[k] == ixs[1..][k - 1];
  }

  lemma {:induction false} NothingAddsNothing(ixs: seq<Invocation>, a: Account, isInput: bool)
    requires forall k :: 0 <= k < |ixs| ==> Flow(ixs[k].body, a, isInput).Nothing?
    ensures Parts(ixs, a, isInput) == 0
  {
    if ixs != [] {
      NothingAddsNothing(ixs[1..], a, isInput);
    }
  }
}
