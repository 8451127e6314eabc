/** Token transfers, the mints of their accounts, and the amounts that a swap moved. */
module RouteAmounts {
  import opened Prelude
  import opened CallForests
  import opened RouteInvocations
  import MintPropagation

  type Mint = Account

  const U64_MAX: nat := 0xffff_ffff_ffff_ffff

  datatype TokenTransfer = TokenTransfer(
    position: Position, program: Program, source: Account, destination: Account, mint: Option<Mint>,
    amount: nat, withheldFee: Option<nat>)

  // What a body transfers: source, destination, amount and the fee withheld, where that is known.
  datatype Move = Move(source: Account, destination: Account, amount: nat, fee: Option<nat>)

  function MoveOf(b: Body): Option<Move> {
    if !b.IsToken() || b.data == [] then None
    else if b.IsChecked() then
      Some(Move(b.AccountAt(0), b.AccountAt(2), b.U64(1), if b.program == Token then Some(0) else None))
    else if b.IsWithFee() then
      Some(Move(b.AccountAt(0), b.AccountAt(2), b.U64(2), Some(b.U64(11))))
    else if b.IsPlain() then
      Some(Move(b.AccountAt(0), b.AccountAt(1), b.U64(1), Some(0)))
    else None
  }

  function TransferOf(ix: Invocation, mints: map<Account, Mint>): Option<TokenTransfer> {
    match MoveOf(ix.body)
    case None => None
    case Some(m) =>
      Some(TokenTransfer(ix.position, ix.body.program, m.source, m.destination,
                         if m.source in mints then Some(mints[m.source]) else None, m.amount, m.fee))
  }

  // ----- Mints -----

  datatype Naming = Naming(account: Account, mint: Mint)

  // What an invocation says outright about the mints of its accounts.
  function Named(b: Body): seq<Naming> {
    (if b.IsChecked() || b.IsWithFee()
     then [Naming(b.AccountAt(0), b.AccountAt(1)), Naming(b.AccountAt(2), b.AccountAt(1))] else [])
    + (if b.IsInitialize() then [Naming(b.AccountAt(0), b.AccountAt(1))] else [])
  }

  function AllNamed(ixs: seq<Invocation>): seq<Naming> {
    if ixs == [] then [] else AllNamed(ixs[..|ixs| - 1]) + Named(ixs[|ixs| - 1].body)
  }

  // A later naming overrules an earlier one.
  function Seeds(names: seq<Naming>): map<Account, Mint> {
    if names == [] then map[] else Seeds(names[..|names| - 1])[names[|names| - 1].account := names[|names| - 1].mint]
  }

  lemma {:induction false} LastNamingWins(names: seq<Naming>, i: nat)
    requires i < |names| && forall j :: i < j < |names| ==> names[j].account != names[i].account
    ensures names[i].account in Seeds(names) && Seeds(names)[names[i].account] == names[i].mint
  {
    if i < |names| - 1 {
      LastNamingWins(names[..|names| - 1], i);
    }
  }

  function Plain(ixs: seq<Invocation>): seq<MintPropagation.Transfer> {
    if ixs == [] then []
    else
      Plain(ixs[..|ixs| - 1])
      + if ixs[|ixs| - 1].body.IsPlain()
        then [MintPropagation.Transfer(ixs[|ixs| - 1].body.AccountAt(0), ixs[|ixs| - 1].body.AccountAt(1))] else []
  }

  function AfterNamed(seeds: map<Account, Mint>, b: Body): map<Account, Mint> {
    if b.IsChecked() || b.IsWithFee() then seeds[b.AccountAt(0) := b.AccountAt(1)][b.AccountAt(2) := b.AccountAt(1)]
    else if b.IsInitialize() then seeds[b.AccountAt(0) := b.AccountAt(1)]
    else seeds
  }

  method SeedFromBalances(balances: seq<Naming>) returns (seeds: map<Account, Mint>)
    ensures seeds == Seeds(balances)
  {
    seeds := map[];
    for i := 0 to |balances|
      invariant seeds == Seeds(balances[..i])
    {
      assert balances[..i + 1][..i] == balances[..i];
      seeds := seeds[balances[i].account := balances[i].mint];
    }
    assert balances[..|balances|] == balances;
  }

  // What the balances and the invocations say outright.
  method SeedMints(balances: seq<Naming>, ixs: seq<Invocation>) returns (seeds: map<Account, Mint>)
    ensures seeds == Seeds(balances + AllNamed(ixs))
  {
    seeds := SeedFromBalances(balances);
    assert balances + AllNamed(ixs[..0]) == balances;
    for i := 0 to |ixs|
      invariant seeds == Seeds(balances + AllNamed(ixs[..i]))
    {
      var b := ixs[i].body;
      SeedsNext(balances, ixs, i);
      if b.IsChecked() || b.IsWithFee() {
        seeds := seeds[b.AccountAt(0) := b.AccountAt(1)];
        seeds := seeds[b.AccountAt(2) := b.AccountAt(1)];
      }
      if b.IsInitialize() {
        seeds := seeds[b.AccountAt(0) := b.AccountAt(1)];
      }
    }
    assert ixs[..|ixs|] == ixs;
  }

  method PlainTransfers(ixs: seq<Invocation>) returns (ts: seq<MintPropagation.Transfer>)
    ensures ts == Plain(ixs)
  {
    ts := [];
    for i := 0 to |ixs|
      invariant ts == Plain(ixs[..i])
    {
      assert ixs[..i + 1][..i] == ixs[..i];
      if ixs[i].body.IsPlain() {
        ts := ts + [MintPropagation.Transfer(ixs[i].body.AccountAt(0), ixs[i].body.AccountAt(1))];
      }
    }
    assert ixs[..|ixs|] == ixs;
  }

  /** The mints of a transaction's accounts: from the balances, then as named, then inferred. */
  method Mints(balances: seq<Naming>, ixs: seq<Invocation>) returns (mints: map<Account, Mint>)
    ensures ZERO !in mints
    ensures var seeds, ts := Seeds(balances + AllNamed(ixs)), Plain(ixs);
            && (forall a :: a in seeds && a != ZERO ==> a in mints && mints[a] == seeds[a])
            && (forall b :: b in mints ==> MintPropagation.Carries(seeds, ts, b, mints[b]))
            && (MintPropagation.OneMintEach(seeds, ts) ==>
                  forall b, m :: MintPropagation.Carries(seeds, ts, b, m) && b != ZERO ==> b in mints && mints[b] == m)
  {
    var seeds := SeedMints(balances, ixs);
    var ts := PlainTransfers(ixs);
    mints := MintPropagation.InferMints(seeds, ts);
  }

  lemma SeedsSnoc(names: seq<Naming>, n: Naming)
    ensures Seeds(names + [n]) == Seeds(names)[n.account := n.mint]
  {
    assert (names + [n])[..|names|] == names;
  }

  lemma SeedsOfNamed(names: seq<Naming>, b: Body)
    ensures Seeds(names + Named(b)) == AfterNamed(Seeds(names), b)
  {
    var n0, n2 := Naming(b.AccountAt(0), b.AccountAt(1)), Naming(b.AccountAt(2), b.AccountAt(1));
    SeedsSnoc(names, n0);
    if b.IsChecked() || b.IsWithFee() {
      assert Named(b) == [n0, n2];
      SeedsSnoc(names + [n0], n2);
      assert names + [n0] + [n2] == names + [n0, n2];
    } else if b.IsInitialize() {
      assert Named(b) == [n0];
    } else {
      assert names + Named(b) == names;
    }
  }

  lemma SeedsNext(balances: seq<Naming>, ixs: seq<Invocation>, i: nat)
    requires i < |ixs|
    ensures Seeds(balances + AllNamed(ixs[..i + 1])) == AfterNamed(Seeds(balances + AllNamed(ixs[..i])), ixs[i].body)
  {
    assert ixs[..i + 1][..i] == ixs[..i];
    SeedsOfNamed(balances + AllNamed(ixs[..i]), ixs[i].body);
    assert balances + AllNamed(ixs[..i]) + Named(ixs[i].body) == balances + AllNamed(ixs[..i + 1]);
  }

  // ----- Sums -----

  // Amounts add up to nothing, to something unknown, or to an exact number.
  datatype Amount = Nothing | Unknown | Exactly(value: nat)

  function Add(a: Amount, b: Amount): Amount {
    if a.Nothing? then b
    else if b.Nothing? then a
    else if a.Unknown? || b.Unknown? then Unknown
    else Exactly(a.value + b.value)
  }

  function Single(v: Option<nat>): Amount {
    match v
    case None => Unknown
    case Some(n) => Exactly(n)
  }

  function Total(values: seq<Option<nat>>): Amount {
    if values == [] then Nothing else Add(Total(values[..|values| - 1]), Single(values[|values| - 1]))
  }

  // An amount is reported only if it is exact and fits 64 bits.
  function Reported(a: Amount): Option<nat> {
    if a.Exactly? && a.value <= U64_MAX then Some(a.value) else None
  }

  lemma {:induction false} UnknownStays(values: seq<Option<nat>>, k: nat)
    requires k < |values| && values[k].None?
    ensures Total(values).Unknown?
  {
    if k < |values| - 1 {
      UnknownStays(values[..|values| - 1], k);
    }
  }

  // The known values together.
  function Known(values: seq<Option<nat>>): nat {
    if values == [] then 0
    else Known(values[..|values| - 1]) + if values[|values| - 1].Some? then values[|values| - 1].value else 0
  }

  method Sum(values: seq<Option<nat>>) returns (r: Option<nat>)
    ensures r == Reported(Total(values))
    ensures r.Some? <==> values != [] && (forall j :: 0 <= j < |values| ==> values[j].Some?) && Known(values) <= U64_MAX
    ensures r.Some? ==> r.value == Known(values)
  {
    if values == [] {
      return None;
    }
    for k := 0 to |values|
      invariant forall j :: 0 <= j < k ==> values[j].Some?
    {
      if values[k].None? {
        UnknownStays(values, k);
        return None;
      }
    }
    var value: nat := 0;
    for k := 0 to |values|
      invariant Total(values[..k]) == if k == 0 then Nothing else Exactly(value)
      invariant value == Known(values[..k])
    {
      assert values[..k + 1][..k] == values[..k];
      value := value + values[k].value;
    }
    assert values[..|values|] == values;
    return if value <= U64_MAX then Some(value) else None;
  }

  // ----- What a swap moved -----

  datatype Leg = Leg(
    isPumpFun: bool, pool: Account, trader: Account, inputAccount: Account, outputAccount: Account,
    inputMint: Option<Mint>)

  // What one call takes from an account.
  function Taken(b: Body, from: Account): Amount {
    match MoveOf(b)
    case None => Nothing
    case Some(m) => if m.source == from then Exactly(m.amount) else Nothing
  }

  // The destination gets the amount less the fee withheld from it.
  function Net(amount: nat, fee: Option<nat>): Option<nat> {
    if fee.None? || fee.value > amount then None else Some(amount - fee.value)
  }

  function Given(b: Body, to: Account): Amount {
    match MoveOf(b)
    case None => Nothing
    case Some(m) => if m.destination == to then Single(Net(m.amount, m.fee)) else Nothing
  }

  function Flow(b: Body, a: Account, isInput: bool): Amount {
    if isInput then Taken(b, a) else Given(b, a)
  }

  /** What a whole tree of calls takes from an account, or gives to it. */
  function TreeFlow(calls: Trees, a: Account, isInput: bool): Amount {
    if calls.Nil? then Nothing
    else
      Add(Flow(calls.call.body, a, isInput),
          Add(TreeFlow(calls.call.inner, a, isInput), TreeFlow(calls.rest, a, isInput)))
  }

  function FlowOf(ixs: seq<Invocation>, a: Account, isInput: bool): Amount {
    if ixs == [] then Nothing
    else Add(FlowOf(ixs[..|ixs| - 1], a, isInput), Flow(ixs[|ixs| - 1].body, a, isInput))
  }

  lemma {:induction false} FlowOfSum(xs: seq<Invocation>, ys: seq<Invocation>, a: Account, isInput: bool)
    ensures FlowOf(xs + ys, a, isInput) == Add(FlowOf(xs, a, isInput), FlowOf(ys, a, isInput))
  {
    if ys == [] {
      assert xs + ys == xs;
    } else {
      var n := |ys| - 1;
      assert (xs + ys)[..|xs| + n] == xs + ys[..n];
      FlowOfSum(xs, ys[..n], a, isInput);
    }
  }

  lemma {:induction false} FlatFlow(calls: Trees, o: nat, idx: nat, h: nat, a: Account, isInput: bool)
    ensures FlowOf(Flat(calls, o, idx, h), a, isInput) == TreeFlow(calls, a, isInput)
    decreases calls
  {
    if calls.Cons? {
      FlatFlow(calls.call.inner, o, idx + 1, h + 1, a, isInput);
      FlatFlow(calls.rest, o, idx + 1 + Size(calls.call.inner), h, a, isInput);
      FlowOfFlat(calls, o, idx, h, a, isInput);
    }
  }

  lemma FlowOfFlat(calls: Trees, o: nat, idx: nat, h: nat, a: Account, isInput: bool)
    requires calls.Cons?
    requires FlowOf(Inside(calls, o, idx, h), a, isInput) == TreeFlow(calls.call.inner, a, isInput)
    requires FlowOf(Later(calls, o, idx, h), a, isInput) == TreeFlow(calls.rest, a, isInput)
    ensures FlowOf(Flat(calls, o, idx, h), a, isInput) == TreeFlow(calls, a, isInput)
  {
    FlatParts(calls, o, idx, h);
    FlowOfParts(Root(calls, o, idx, h), Inside(calls, o, idx, h), Later(calls, o, idx, h), a, isInput);
  }

  lemma FlowOfParts(ix: Invocation, inner: seq<Invocation>, rest: seq<Invocation>, a: Account, isInput: bool)
    ensures FlowOf([ix] + inner + rest, a, isInput)
         == Add(Flow(ix.body, a, isInput), Add(FlowOf(inner, a, isInput), FlowOf(rest, a, isInput)))
  {
    FlowOfSum([ix], inner, a, isInput);
    FlowOfSum([ix] + inner, rest, a, isInput);
    FlowOfOne(ix, a, isInput);
  }

  lemma FlowOfOne(ix: Invocation, a: Account, isInput: bool)
    ensures FlowOf([ix], a, isInput) == Flow(ix.body, a, isInput)
  {
    assert [ix][..0] == [];
  }

  function TransfersOf(ixs: seq<Invocation>, mints: map<Account, Mint>): seq<TokenTransfer> {
    if ixs == [] then []
    else
      TransfersOf(ixs[..|ixs| - 1], mints)
      + match TransferOf(ixs[|ixs| - 1], mints) { case None => [] case Some(t) => [t] }
  }

  function Taking(ts: seq<TokenTransfer>, from: Account): seq<Option<nat>> {
    if ts == [] then []
    else
      Taking(ts[..|ts| - 1], from)
      + if ts[|ts| - 1].source == from then [Some(ts[|ts| - 1].amount)] else []
  }

  function Giving(ts: seq<TokenTransfer>, to: Account): seq<Option<nat>> {
    if ts == [] then []
    else
      Giving(ts[..|ts| - 1], to)
      + if ts[|ts| - 1].destination == to then [Net(ts[|ts| - 1].amount, ts[|ts| - 1].withheldFee)] else []
  }

  lemma TotalSnoc(values: seq<Option<nat>>, v: Option<nat>)
    ensures Total(values + [v]) == Add(Total(values), Single(v))
  {
    assert (values + [v])[..|values|] == values;
  }

  lemma TakingSnoc(ts: seq<TokenTransfer>, t: TokenTransfer, a: Account)
    ensures Taking(ts + [t], a) == Taking(ts, a) + (if t.source == a then [Some(t.amount)] else [])
    ensures Giving(ts + [t], a) == Giving(ts, a) + (if t.destination == a then [Net(t.amount, t.withheldFee)] else [])
  {
    assert (ts + [t])[..|ts|] == ts;
  }

  lemma TakingNext(ts: seq<TokenTransfer>, t: TokenTransfer, a: Account)
    ensures Total(Taking(ts + [t], a)) == Add(Total(Taking(ts, a)), if t.source == a then Exactly(t.amount) else Nothing)
  {
    TakingSnoc(ts, t, a);
    TotalSnoc(Taking(ts, a), Some(t.amount));
    assert Taking(ts, a) + [] == Taking(ts, a);
  }

  lemma GivingNext(ts: seq<TokenTransfer>, t: TokenTransfer, a: Account)
    ensures Total(Giving(ts + [t], a)) ==
            Add(Total(Giving(ts, a)), if t.destination == a then Single(Net(t.amount, t.withheldFee)) else Nothing)
  {
    TakingSnoc(ts, t, a);
    TotalSnoc(Giving(ts, a), Net(t.amount, t.withheldFee));
    assert Giving(ts, a) + [] == Giving(ts, a);
  }

  lemma {:induction false} FlowIsTotal(ixs: seq<Invocation>, mints: map<Account, Mint>, a: Account)
    ensures FlowOf(ixs, a, true) == Total(Taking(TransfersOf(ixs, mints), a))
    ensures FlowOf(ixs, a, false) == Total(Giving(TransfersOf(ixs, mints), a))
  {
    if ixs != [] {
      var n := |ixs| - 1;
      FlowIsTotal(ixs[..n], mints, a);
      var ts := TransfersOf(ixs[..n], mints);
      match TransferOf(ixs[n], mints) {
        case None =>
          assert ts + [] == ts;
        case Some(t) =>
          TakingNext(ts, t, a);
          GivingNext(ts, t, a);
      }
    }
  }

  method Nested(children: seq<Invocation>, mints: map<Account, Mint>) returns (ts: seq<TokenTransfer>)
    ensures ts == TransfersOf(children, mints)
  {
    ts := [];
    for i := 0 to |children|
      invariant ts == TransfersOf(children[..i], mints)
    {
      assert children[..i + 1][..i] == children[..i];
      var t := TransferOf(children[i], mints);
      if t.Some? {
        ts := ts + [t.value];
      }
    }
    assert children[..|children|] == children;
  }

  // The sums over the transfers inside a leg: what left its input account and reached its output account.
  method Moved(children: seq<Invocation>, mints: map<Account, Mint>, leg: Leg)
    returns (input: Option<nat>, output: Option<nat>)
    ensures input == Reported(FlowOf(children, leg.inputAccount, true))
    ensures output == Reported(FlowOf(children, leg.outputAccount, false))
  {
    var nested := Nested(children, mints);
    var taking, giving: seq<Option<nat>> := [], [];
    for i := 0 to |nested|
      invariant taking == Taking(nested[..i], leg.inputAccount)
      invariant giving == Giving(nested[..i], leg.outputAccount)
    {
      var t := nested[i];
      assert nested[..i + 1] == nested[..i] + [t];
      TakingSnoc(nested[..i], t, leg.inputAccount);
      TakingSnoc(nested[..i], t, leg.outputAccount);
      if t.source == leg.inputAccount {
        taking := taking + [Some(t.amount)];
      }
      if t.destination == leg.outputAccount {
        giving := giving + [Net(t.amount, t.withheldFee)];
      }
    }
    assert nested[..|nested|] == nested;
    FlowIsTotal(children, mints, leg.inputAccount);
    FlowIsTotal(children, mints, leg.outputAccount);
    input := Sum(taking);
    output := Sum(giving);
  }

  // ----- What a Pump.fun buyer paid in lamports -----

  predicate Pays(b: Body, trader: Account) {
    b.IsPayment() && b.AccountAt(0) == trader
  }

  // The accounts of the swap that a buyer may pay: pool, fee recipient, creator vault and the like.
  predicate IsRecipient(b: Body, a: Account) {
    a == b.AccountAt(6) || a == b.AccountAt(8) || a == b.AccountAt(10) || a == b.AccountAt(16)
  }

  const WSOL: Account := 1

  predicate PaysNatively(b: Body, leg: Leg) {
    leg.isPumpFun && |b.accounts| >= 17 && b.AccountAt(2) == WSOL && leg.inputAccount == leg.trader
  }

  // A payment made by a call at height `h`, to a recipient of the swap.
  predicate IsProper(ix: Invocation, swap: Body, h: nat) {
    ix.position.height == Some(h) && IsRecipient(swap, ix.body.AccountAt(1))
  }

  ghost predicate AllProper(ixs: seq<Invocation>, swap: Body, trader: Account, h: nat) {
    forall k :: 0 <= k < |ixs| && Pays(ixs[k].body, trader) ==> IsProper(ixs[k], swap, h)
  }

  ghost predicate PoolPaid(ixs: seq<Invocation>, leg: Leg) {
    exists k :: 0 <= k < |ixs| && Pays(ixs[k].body, leg.trader) && ixs[k].body.AccountAt(1) == leg.pool
  }

  function Paid(b: Body, trader: Account): nat {
    if Pays(b, trader) then b.U64(4) else 0
  }

  function PaidIn(ixs: seq<Invocation>, trader: Account): nat {
    if ixs == [] then 0 else PaidIn(ixs[..|ixs| - 1], trader) + Paid(ixs[|ixs| - 1].body, trader)
  }

  lemma {:induction false} PaidGrows(ixs: seq<Invocation>, trader: Account, k: nat)
    requires k <= |ixs|
    ensures PaidIn(ixs[..k], trader) <= PaidIn(ixs, trader)
  {
    if k < |ixs| {
      PaidGrows(ixs[..|ixs| - 1], trader, k);
      assert ixs[..|ixs| - 1][..k] == ixs[..k];
    } else {
      assert ixs[..k] == ixs;
    }
  }

  ghost function Debit(ix: Invocation, children: seq<Invocation>, leg: Leg): Option<nat> {
    if && PaysNatively(ix.body, leg) && ix.position.height.Some?
       && AllProper(children, ix.body, leg.trader, ix.position.height.value + 1)
       && PoolPaid(children, leg) && PaidIn(children, leg.trader) <= U64_MAX
    then Some(PaidIn(children, leg.trader)) else None
  }

  method NativeDebit(ix: Invocation, children: seq<Invocation>, leg: Leg) returns (r: Option<nat>)
    ensures r == Debit(ix, children, leg)
  {
    if !PaysNatively(ix.body, leg) || ix.position.height.None? {
      return None;
    }
    var h := ix.position.height.value + 1;
    var total: nat, paidPool := 0, false;
    for i := 0 to |children|
      invariant AllProper(children[..i], ix.body, leg.trader, h)
      invariant paidPool <==> PoolPaid(children[..i], leg)
      invariant total == PaidIn(children[..i], leg.trader) <= U64_MAX
    {
      var child := children[i];
      assert children[..i + 1] == children[..i] + [child];
      assert children[..i + 1][..i] == children[..i];
      PaidGrows(children, leg.trader, i + 1);
      PoolPaidNext(children[..i], child, leg);
      if Pays(child.body, leg.trader) {
        if !IsProper(child, ix.body, h) {
          return None;
        }
        paidPool := paidPool || child.body.AccountAt(1) == leg.pool;
        total := total + child.body.U64(4);
        if total > U64_MAX {
          return None;
        }
      }
    }
    assert children[..|children|] == children;
    return if paidPool then Some(total) else None;
  }

  lemma PoolPaidNext(ixs: seq<Invocation>, ix: Invocation, leg: Leg)
    ensures PoolPaid(ixs + [ix], leg) <==>
            PoolPaid(ixs, leg) || (Pays(ix.body, leg.trader) && ix.body.AccountAt(1) == leg.pool)
  {
    var all := ixs + [ix];
    assert all[|ixs|] == ix;
    if PoolPaid(ixs, leg) {
      var k :| 0 <= k < |ixs| && Pays(ixs[k].body, leg.trader) && ixs[k].body.AccountAt(1) == leg.pool;
      assert all[k] == ixs[k];
    }
  }

  /** No call in the tree, however deep, is a payment by the trader. */
  predicate NoPayment(calls: Trees, trader: Account) {
    calls.Cons? ==>
      !Pays(calls.call.body, trader) && NoPayment(calls.call.inner, trader) && NoPayment(calls.rest, trader)
  }

  /** The trader's payments are all made by the topmost calls, and go to recipients of the swap. */
  predicate PaysDirectly(calls: Trees, swap: Body, trader: Account) {
    calls.Cons? ==>
      && (Pays(calls.call.body, trader) ==> IsRecipient(swap, calls.call.body.AccountAt(1)))
      && NoPayment(calls.call.inner, trader)
      && PaysDirectly(calls.rest, swap, trader)
  }

  // What the topmost calls pay.
  function DirectlyPaid(calls: Trees, trader: Account): nat {
    if calls.Nil? then 0 else Paid(calls.call.body, trader) + DirectlyPaid(calls.rest, trader)
  }

  predicate DirectlyPaysPool(calls: Trees, leg: Leg) {
    calls.Cons? &&
    (|| (Pays(calls.call.body, leg.trader) && calls.call.body.AccountAt(1) == leg.pool)
     || DirectlyPaysPool(calls.rest, leg))
  }

  ghost predicate NonePays(ixs: seq<Invocation>, trader: Account) {
    forall k :: 0 <= k < |ixs| ==> !Pays(ixs[k].body, trader)
  }

  lemma NonePaysSum(xs: seq<Invocation>, ys: seq<Invocation>, trader: Account)
    ensures NonePays(xs + ys, trader) <==> NonePays(xs, trader) && NonePays(ys, trader)
  {
    assert forall k :: 0 <= k < |xs| ==> (xs + ys)[k] == xs[k];
    assert forall k :: 0 <= k < |ys| ==> (xs + ys)[|xs| + k] == ys[k];
  }

  lemma {:induction false} FlatNoPayment(calls: Trees, o: nat, idx: nat, h: nat, trader: Account)
    ensures NonePays(Flat(calls, o, idx, h), trader) <==> NoPayment(calls, trader)
  {
    if calls.Cons? {
      var own := [Invocation(Position(o, Some(idx), Some(h)), calls.call.body)];
      var inner := Flat(calls.call.inner, o, idx + 1, h + 1);
      var rest := Flat(calls.rest, o, idx + 1 + Size(calls.call.inner), h);
      FlatNoPayment(calls.call.inner, o, idx + 1, h + 1, trader);
      FlatNoPayment(calls.rest, o, idx + 1 + Size(calls.call.inner), h, trader);
      NonePaysSum(own, inner, trader);
      NonePaysSum(own + inner, rest, trader);
      assert NonePays(own, trader) <==> !Pays(own[0].body, trader);
    }
  }

  lemma AllProperSum(xs: seq<Invocation>, ys: seq<Invocation>, swap: Body, trader: Account, h: nat)
    ensures AllProper(xs + ys, swap, trader, h) <==> AllProper(xs, swap, trader, h) && AllProper(ys, swap, trader, h)
  {
    assert forall k :: 0 <= k < |xs| ==> (xs + ys)[k] == xs[k];
    assert forall k :: 0 <= k < |ys| ==> (xs + ys)[|xs| + k] == ys[k];
  }

  lemma {:induction false} FlatAllProper(calls: Trees, o: nat, idx: nat, h: nat, swap: Body, trader: Account)
    ensures AllProper(Flat(calls, o, idx, h), swap, trader, h) <==> PaysDirectly(calls, swap, trader)
  {
    if calls.Cons? {
      var own := [Invocation(Position(o, Some(idx), Some(h)), calls.call.body)];
      var inner := Flat(calls.call.inner, o, idx + 1, h + 1);
      var rest := Flat(calls.rest, o, idx + 1 + Size(calls.call.inner), h);
      FlatAllProper(calls.rest, o, idx + 1 + Size(calls.call.inner), h, swap, trader);
      FlatNoPayment(calls.call.inner, o, idx + 1, h + 1, trader);
      FlatRunsInside(calls.call.inner, o, idx + 1, h + 1);
      HigherIsImproper(inner, o, idx + 1, h, swap, trader);
      AllProperSum(own, inner, swap, trader, h);
      AllProperSum(own + inner, rest, swap, trader, h);
      assert AllProper(own, swap, trader, h) <==>
             (Pays(own[0].body, trader) ==> IsRecipient(swap, own[0].body.AccountAt(1)));
    }
  }

  // A payment above height `h` is never made by a topmost call.
  lemma HigherIsImproper(ixs: seq<Invocation>, o: nat, idx: nat, h: nat, swap: Body, trader: Account)
    requires RunsInside(ixs, o, idx, h + 1)
    ensures AllProper(ixs, swap, trader, h) <==> NonePays(ixs, trader)
  {
  }

  lemma {:induction false} PaidInSum(xs: seq<Invocation>, ys: seq<Invocation>, trader: Account)
    ensures PaidIn(xs + ys, trader) == PaidIn(xs, trader) + PaidIn(ys, trader)
  {
    if ys == [] {
      assert xs + ys == xs;
    } else {
      var n := |ys| - 1;
      assert (xs + ys)[..|xs| + n] == xs + ys[..n];
      PaidInSum(xs, ys[..n], trader);
    }
  }

  lemma {:induction false} NonePaysNothing(ixs: seq<Invocation>, trader: Account)
    requires NonePays(ixs, trader)
    ensures PaidIn(ixs, trader) == 0
  {
    if ixs != [] {
      NonePaysNothing(ixs[..|ixs| - 1], trader);
    }
  }

  lemma PoolPaidSum(xs: seq<Invocation>, ys: seq<Invocation>, leg: Leg)
    ensures PoolPaid(xs + ys, leg) <==> PoolPaid(xs, leg) || PoolPaid(ys, leg)
  {
    assert forall k :: 0 <= k < |xs| ==> (xs + ys)[k] == xs[k];
    assert forall k :: 0 <= k < |ys| ==> (xs + ys)[|xs| + k] == ys[k];
  }

  lemma {:induction false} FlatPaid(calls: Trees, o: nat, idx: nat, h: nat, swap: Body, leg: Leg)
    requires PaysDirectly(calls, swap, leg.trader)
    ensures PaidIn(Flat(calls, o, idx, h), leg.trader) == DirectlyPaid(calls, leg.trader)
    ensures PoolPaid(Flat(calls, o, idx, h), leg) <==> DirectlyPaysPool(calls, leg)
    decreases calls
  {
    if calls.Cons? {
      FlatPaid(calls.rest, o, idx + 1 + Size(calls.call.inner), h, swap, leg);
      FlatNoPayment(calls.call.inner, o, idx + 1, h + 1, leg.trader);
      FlatParts(calls, o, idx, h);
      PaidByParts(Root(calls, o, idx, h), Inside(calls, o, idx, h), Later(calls, o, idx, h), leg);
    } else {
      assert PaidIn([], leg.trader) == 0;
    }
  }

  lemma PaidByParts(ix: Invocation, inner: seq<Invocation>, rest: seq<Invocation>, leg: Leg)
    requires NonePays(inner, leg.trader)
    ensures PaidIn([ix] + inner + rest, leg.trader) == Paid(ix.body, leg.trader) + PaidIn(rest, leg.trader)
    ensures PoolPaid([ix] + inner + rest, leg) <==>
            (Pays(ix.body, leg.trader) && ix.body.AccountAt(1) == leg.pool) || PoolPaid(rest, leg)
  {
    NonePaysNothing(inner, leg.trader);
    PaidInSum([ix], inner, leg.trader);
    PaidInSum([ix] + inner, rest, leg.trader);
    PoolPaidSum([ix], inner, leg);
    PoolPaidSum([ix] + inner, rest, leg);
    PaidByOne(ix, leg);
  }

  lemma PaidByOne(ix: Invocation, leg: Leg)
    ensures PaidIn([ix], leg.trader) == Paid(ix.body, leg.trader)
    ensures PoolPaid([ix], leg) <==> Pays(ix.body, leg.trader) && ix.body.AccountAt(1) == leg.pool
  {
    assert [ix][..0] == [];
    assert [ix][0] == ix;
  }

  // ----- The amounts of a leg -----

  /**
   The amounts of a leg: none unless the transaction succeeded; the lamports paid, where a Pump.fun
   buyer pays natively; otherwise the sums over the transfers inside.
   */
  method LegAmounts(ixs: seq<Invocation>, i: nat, mints: map<Account, Mint>, leg: Leg, succeeded: bool)
    returns (input: Option<nat>, output: Option<nat>)
    requires i < |ixs|
    ensures !succeeded ==> input.None? && output.None?
    ensures succeeded ==>
              var children := DescendantRun(ixs[i].position, ixs[i + 1..]);
              && output == Reported(FlowOf(children, leg.outputAccount, false))
              && input == if IsNative(leg) then Debit(ixs[i], children, leg)
                          else Reported(FlowOf(children, leg.inputAccount, true))
  {
    input, output := None, None;
    if succeeded {
      var children := Children(ixs, i);
      input, output := Moved(children, mints, leg);
      if IsNative(leg) {
        input := NativeDebit(ixs[i], children, leg);
      }
    }
  }

  predicate IsNative(leg: Leg) {
    leg.isPumpFun && leg.inputMint == Some(WSOL) && leg.inputAccount == leg.trader
  }

  /**
   For every tree of calls with known heights: the sums that a leg reports are the exact totals of
   what the calls inside that leg took from its input account and gave to its output account, fees
   deducted, and are reported only if every part is known and the total fits 64 bits.
   */
  lemma SumsAreExact(outers: Trees, n: nat, a: Account, isInput: bool)
    requires n < Size(outers)
    ensures |Transaction(outers, 0)| == Size(outers)
    ensures var ixs := Transaction(outers, 0);
            FlowOf(DescendantRun(ixs[n].position, ixs[n + 1..]), a, isInput) == TreeFlow(Nth(outers, n).inner, a, isInput)
  {
    ScanFindsSubtree(outers, 0, n);
    var top, at, level := SubtreeOfIsFlat(outers, 0, n);
    FlatFlow(Nth(outers, n).inner, top, at, level + 1, a, isInput);
  }

  function TreeDebit(swap: Call<Body>, leg: Leg): Option<nat> {
    if && PaysNatively(swap.body, leg) && PaysDirectly(swap.inner, swap.body, leg.trader)
       && DirectlyPaysPool(swap.inner, leg) && DirectlyPaid(swap.inner, leg.trader) <= U64_MAX
    then Some(DirectlyPaid(swap.inner, leg.trader)) else None
  }

  /**
   A native debit is reported exactly if all payments of the trader inside the swap are made by the
   swap's own calls, to its recipients, at least one of them to the pool; and it is their total.
   */
  lemma DebitIsDirect(outers: Trees, n: nat, leg: Leg)
    requires n < Size(outers)
    ensures |Transaction(outers, 0)| == Size(outers)
    ensures var ixs := Transaction(outers, 0);
            Debit(ixs[n], DescendantRun(ixs[n].position, ixs[n + 1..]), leg) == TreeDebit(Nth(outers, n), leg)
  {
    ScanFindsSubtree(outers, 0, n);
    var top, at, level := SubtreeOfIsFlat(outers, 0, n);
    DebitOfFlat(Transaction(outers, 0)[n], Nth(outers, n), top, at, level, leg);
  }

  lemma DebitOfFlat(ix: Invocation, swap: Call<Body>, top: nat, at: nat, level: nat, leg: Leg)
    requires ix.body == swap.body && ix.position.height == Some(level)
    ensures Debit(ix, Flat(swap.inner, top, at, level + 1), leg) == TreeDebit(swap, leg)
  {
    FlatAllProper(swap.inner, top, at, level + 1, swap.body, leg.trader);
    if PaysDirectly(swap.inner, swap.body, leg.trader) {
      FlatPaid(swap.inner, top, at, level + 1, swap.body, leg);
    }
  }
}
