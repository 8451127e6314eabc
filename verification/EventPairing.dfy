/**
 Pairing of log events with instruction events. Executions without an identity of their own are
 told apart by counting: the k-th instruction of a base belongs to the k-th log event of it.
 */
module EventPairing {
  import opened Prelude

  datatype Variant = Trade | Buy | Sell | BuyExactSolIn

  // `checked` kinds have no key while their identity is the default one; `fills` kinds have accounts to fill,
  // `names` kinds the name of the instruction.
  datatype Kind =
    | PumpTrade(variant: Variant)
    | PumpCreate
    | PumpCreateV2
    | Counted(protocol: nat, checked: bool, fills: bool, names: bool)
    | Plain(tag: nat, checked: bool, fills: bool)
    | DbcSwap(version: nat)
    | Unkeyed(tag: nat)

  // Keys are numbers: 0 is the default public key, 1 the empty string.
  const DEFAULT_KEY := 0
  const EMPTY_KEY := 1

  // `identity` holds the fields a key is made of. `account` and `limit` stand for the many string and
  // number fields that are filled alike.
  datatype Event = Event(kind: Kind, mint: nat, user: nat, isBuy: bool, ixName: string, identity: seq<nat>,
                         account: nat, limit: nat, createdBuy: bool)

  datatype Base = TradeBase(mint: nat, user: nat, isBuy: bool, lane: nat) | CountedBase(protocol: nat, identity: seq<nat>)

  datatype Key = Occurrence(base: Base, number: nat) | CreateKey(mint: nat) | PlainKey(tag: nat, identity: seq<nat>)

  function Lane(ixName: string): nat {
    if ixName in {"sell", "sell_v2", "sell_v3"} then 1
    else if ixName in {"buy_exact_sol_in", "buy_exact_quote_in", "buy_exact_quote_in_v2", "buy_exact_quote_in_v3"} then 2
    else 0
  }

  predicate IsDefault(k: nat) {
    k == DEFAULT_KEY || k == EMPTY_KEY
  }

  predicate Unidentified(e: Event) {
    e.identity == [] || IsDefault(e.identity[0])
  }

  // What an event is counted under, if it is counted.
  function BaseOf(e: Event): Option<Base> {
    match e.kind
    case PumpTrade(_) => Some(TradeBase(e.mint, e.user, e.isBuy, Lane(e.ixName)))
    case Counted(p, checked, _, _) => if checked && Unidentified(e) then None else Some(CountedBase(p, e.identity))
    case _ => None
  }

  function KeyOf(e: Event, number: nat): Option<Key> {
    match BaseOf(e)
    case Some(b) => Some(Occurrence(b, number))
    case None =>
      match e.kind
      case PumpCreate => Some(CreateKey(e.mint))
      case PumpCreateV2 => Some(CreateKey(e.mint))
      case Plain(t, checked, _) => if checked && Unidentified(e) then None else Some(PlainKey(t, e.identity))
      case _ => None
  }

  function Count(evs: seq<Event>, b: Base): nat {
    if evs == [] then 0 else Count(evs[..|evs| - 1], b) + (if BaseOf(evs[|evs| - 1]) == Some(b) then 1 else 0)
  }

  // The number of earlier events of the same base.
  function Number(evs: seq<Event>, i: nat): nat
    requires i < |evs|
  {
    match BaseOf(evs[i])
    case Some(b) => Count(evs[..i], b)
    case None => 0
  }

  function KeyAt(evs: seq<Event>, i: nat): Option<Key>
    requires i < |evs|
  {
    KeyOf(evs[i], Number(evs, i))
  }

  // ----- Merging an instruction event into what is there -----

  function Fill(to: nat, from: nat): nat {
    if IsDefault(to) && !IsDefault(from) then from else to
  }

  function FillNonZero(to: nat, from: nat): nat {
    if to == 0 then from else to
  }

  function MergeInto(log: Event, ix: Event): Event {
    var named := if log.ixName == "" then ix.ixName else log.ixName;
    if log.kind.PumpTrade? && ix.kind.PumpTrade? then
      log.(account := Fill(log.account, ix.account), limit := FillNonZero(log.limit, ix.limit),
      ixName := if IsVersioned(ix.ixName) then ix.ixName else named, createdBuy := log.createdBuy || ix.createdBuy)
    else if (log.kind.PumpCreate? || log.kind.PumpCreateV2?) && (ix.kind.PumpCreate? || ix.kind.PumpCreateV2?) then
      log.(account := Fill(log.account, ix.account), limit := FillNonZero(log.limit, ix.limit),
      ixName := named, mint := Fill(log.mint, ix.mint), user := Fill(log.user, ix.user))
    else if log.kind == ix.kind && (log.kind.Counted? || log.kind.Plain?) then
      log.(account := if log.kind.fills then Fill(log.account, ix.account) else log.account,
      ixName := if log.kind.Counted? && log.kind.names then named else log.ixName)
    else log
  }

  // ----- The pass -----

  // `slots[i]` is the output place the i-th instruction went to.
  datatype Pass = Pass(out: seq<Event>, index: map<Key, nat>, slots: seq<nat>)

  ghost predicate Fits(p: Pass) {
    forall k :: k in p.index ==> p.index[k] < |p.out|
  }

  // Each key's last log event.
  function LogIndex(logs: seq<Event>): (m: map<Key, nat>)
    ensures forall k :: k in m ==> m[k] < |logs|
  {
    if logs == [] then map[]
    else
      var n := |logs| - 1;
      var before := LogIndex(logs[..n]);
      match KeyAt(logs, n)
      case Some(k) => before[k := n]
      case None => before
  }

  // Ordinal pairing is trusted only for a base both sources have seen equally often.
  predicate Balanced(logs: seq<Event>, ixs: seq<Event>, b: Base) {
    Count(logs, b) == Count(ixs, b)
  }

  predicate Trusted(logs: seq<Event>, ixs: seq<Event>, k: Key) {
    k.Occurrence? ==> Balanced(logs, ixs, k.base)
  }

  function StartPass(logs: seq<Event>, ixs: seq<Event>): (p: Pass)
    ensures Fits(p)
  {
    var m := LogIndex(logs);
    Pass(logs, map k | k in m && Trusted(logs, ixs, k) :: m[k], [])
  }

  function PassStep(p: Pass, ix: Event, key: Option<Key>): (r: Pass)
    requires Fits(p)
    ensures Fits(r) && |r.slots| == |p.slots| + 1
  {
    if key.None? then p.(out := p.out + [ix], slots := p.slots + [|p.out|])
    else if key.value in p.index then
      var s := p.index[key.value];
      p.(out := p.out[s := MergeInto(p.out[s], ix)], slots := p.slots + [s])
    else Pass(p.out + [ix], p.index[key.value := |p.out|], p.slots + [|p.out|])
  }

  // The pass over the first `n` instructions.
  function RunPass(logs: seq<Event>, ixs: seq<Event>, n: nat): (p: Pass)
    requires n <= |ixs|
    ensures Fits(p) && |p.slots| == n
  {
    if n == 0 then StartPass(logs, ixs) else PassStep(RunPass(logs, ixs, n - 1), ixs[n - 1], KeyAt(ixs, n - 1))
  }

  function Paired(logs: seq<Event>, ixs: seq<Event>): seq<Event> {
    RunPass(logs, ixs, |ixs|).out
  }

  // ----- Every event is accounted for -----

  // What place `s` holds: what stood there first, with the instructions sent there merged in, in order.
  function Holds(logs: seq<Event>, ixs: seq<Event>, slots: seq<nat>, s: nat): Option<Event>
    requires |slots| <= |ixs|
  {
    if slots == [] then (if s < |logs| then Some(logs[s]) else None)
    else
      var n := |slots| - 1;
      var before := Holds(logs, ixs, slots[..n], s);
      if slots[n] != s then before
      else if before.None? then Some(ixs[n])
      else Some(MergeInto(before.value, ixs[n]))
  }

  function Joined(logs: seq<Event>, slots: seq<nat>): nat {
    if slots == [] then 0
    else Joined(logs, slots[..|slots| - 1]) + (if slots[|slots| - 1] < Places(logs, slots[..|slots| - 1]) then 1 else 0)
  }

  // The places in use after some instructions.
  function Places(logs: seq<Event>, slots: seq<nat>): (r: nat)
    ensures r >= |logs|
  {
    if slots == [] then |logs|
    else
      var before := Places(logs, slots[..|slots| - 1]);
      if slots[|slots| - 1] < before then before else before + 1
  }

  lemma HoldsNext(logs: seq<Event>, ixs: seq<Event>, slots: seq<nat>, to: nat, s: nat)
    requires |slots| < |ixs|
    ensures Holds(logs, ixs, slots + [to], s) ==
            var before := Holds(logs, ixs, slots, s);
            if to != s then before else if before.None? then Some(ixs[|slots|]) else Some(MergeInto(before.value, ixs[|slots|]))
  {
    assert (slots + [to])[..|slots|] == slots;
  }

  lemma {:induction false} NothingBeyond(logs: seq<Event>, ixs: seq<Event>, slots: seq<nat>, s: nat)
    requires |slots| <= |ixs| && s >= |logs| && forall i :: 0 <= i < |slots| ==> slots[i] < s
    ensures Holds(logs, ixs, slots, s) == None
  {
    if slots != [] {
      NothingBeyond(logs, ixs, slots[..|slots| - 1], s);
    }
  }

  // After `p.slots` instructions, every place holds the merge of what went there.
  ghost predicate Accounts(logs: seq<Event>, ixs: seq<Event>, p: Pass) {
    && |p.slots| <= |ixs|
    && |p.out| == Places(logs, p.slots) == |logs| + |p.slots| - Joined(logs, p.slots)
    && (forall i :: 0 <= i < |p.slots| ==> p.slots[i] < |p.out|)
    && forall s :: 0 <= s < |p.out| ==> Holds(logs, ixs, p.slots, s) == Some(p.out[s])
  }

  lemma PlacesNext(logs: seq<Event>, slots: seq<nat>, to: nat)
    ensures Places(logs, slots + [to]) == Places(logs, slots) + (if to < Places(logs, slots) then 0 else 1)
    ensures Joined(logs, slots + [to]) == Joined(logs, slots) + (if to < Places(logs, slots) then 1 else 0)
  {
    assert (slots + [to])[..|slots|] == slots;
  }

  lemma StepAccounts(logs: seq<Event>, ixs: seq<Event>, p: Pass, q: Pass, to: nat)
    requires Accounts(logs, ixs, p) && |p.slots| < |ixs| && q.slots == p.slots + [to]
    requires to <= |p.out|
    requires q.out == if to < |p.out| then p.out[to := MergeInto(p.out[to], ixs[|p.slots|])] else p.out + [ixs[|p.slots|]]
    ensures Accounts(logs, ixs, q)
  {
    PlacesNext(logs, p.slots, to);
    forall s | 0 <= s < |q.out|
      ensures Holds(logs, ixs, q.slots, s) == Some(q.out[s])
    {
      HoldsNext(logs, ixs, p.slots, to, s);
      if s == |p.out| {
        NothingBeyond(logs, ixs, p.slots, s);
      }
    }
  }

  lemma PassStepGoes(p: Pass, ix: Event, key: Option<Key>)
    requires Fits(p)
    ensures var q := PassStep(p, ix, key);
            var to := q.slots[|p.slots|];
            && q.slots == p.slots + [to] && to <= |p.out|
            && q.out == if to < |p.out| then p.out[to := MergeInto(p.out[to], ix)] else p.out + [ix]
  {
  }

  lemma PassStepAccounts(logs: seq<Event>, ixs: seq<Event>, p: Pass, key: Option<Key>)
    requires Accounts(logs, ixs, p) && Fits(p) && |p.slots| < |ixs|
    ensures Accounts(logs, ixs, PassStep(p, ixs[|p.slots|], key))
  {
    var q := PassStep(p, ixs[|p.slots|], key);
    PassStepGoes(p, ixs[|p.slots|], key);
    StepAccounts(logs, ixs, p, q, q.slots[|p.slots|]);
  }

  /**
   Conservation: the output starts with one place for each log event; each instruction joined one
   of the places before it or opened the next one, and every place holds exactly the merge of what
   went there. So nothing is lost, and the size is the sum of both inputs less the joins.
   */
  lemma {:induction false} PassConserves(logs: seq<Event>, ixs: seq<Event>, n: nat)
    requires n <= |ixs|
    ensures Accounts(logs, ixs, RunPass(logs, ixs, n))
  {
    if n > 0 {
      PassConserves(logs, ixs, n - 1);
      var p := RunPass(logs, ixs, n - 1);
      assert Accounts(logs, ixs, p) && |p.slots| == n - 1;
      PassStepAccounts(logs, ixs, p, KeyAt(ixs, n - 1));
    }
  }

  // ----- Who joins whom -----

  // The place of the k-th event of a base.
  function Kth(evs: seq<Event>, b: Base, k: nat): (i: nat)
    requires k < Count(evs, b)
    ensures i < |evs| && BaseOf(evs[i]) == Some(b) && Count(evs[..i], b) == k
  {
    var n := |evs| - 1;
    if BaseOf(evs[n]) == Some(b) && Count(evs[..n], b) == k then n
    else
      var i := Kth(evs[..n], b, k);
      assert evs[..n][..i] == evs[..i];
      i
  }

  // The last event with a key that is not counted.
  function LastWith(evs: seq<Event>, k: Key): Option<nat> {
    if evs == [] then None
    else if KeyAt(evs, |evs| - 1) == Some(k) then Some(|evs| - 1)
    else LastWith(evs[..|evs| - 1], k)
  }

  lemma KeyOfBase(e: Event, number: nat, k: Key)
    ensures KeyOf(e, number) == Some(k) && k.Occurrence? <==> BaseOf(e).Some? && k == Occurrence(BaseOf(e).value, number)
  {
  }

  // The index of the logs finds the k-th of a base, and the last of a plain key.
  lemma {:induction false} LogIndexFinds(logs: seq<Event>, k: Key)
    ensures k.Occurrence? ==>
              && (k in LogIndex(logs) <==> k.number < Count(logs, k.base))
              && (k in LogIndex(logs) ==> LogIndex(logs)[k] == Kth(logs, k.base, k.number))
    ensures !k.Occurrence? ==>
              && (k in LogIndex(logs) <==> LastWith(logs, k).Some?)
              && (k in LogIndex(logs) ==> LogIndex(logs)[k] == LastWith(logs, k).value)
  {
    if logs != [] {
      var n := |logs| - 1;
      LogIndexFinds(logs[..n], k);
      if KeyAt(logs, n).Some? {
        KeyOfBase(logs[n], Number(logs, n), KeyAt(logs, n).value);
      }
    }
  }

  // What the index knows of counted keys before the n-th instruction.
  ghost predicate CountedIndex(logs: seq<Event>, ixs: seq<Event>, n: nat, k: Key)
    requires n <= |ixs|
  {
    var m := RunPass(logs, ixs, n).index;
    k.Occurrence? ==>
      if Balanced(logs, ixs, k.base) then
        && (k in m <==> k.number < Count(logs, k.base))
        && (k in m ==> m[k] == Kth(logs, k.base, k.number))
      else k in m <==> k.number < Count(ixs[..n], k.base)
  }

  lemma CountNext(evs: seq<Event>, i: nat, b: Base)
    requires i < |evs|
    ensures Count(evs[..i + 1], b) == Count(evs[..i], b) + (if BaseOf(evs[i]) == Some(b) then 1 else 0)
  {
    assert evs[..i + 1][..i] == evs[..i];
  }

  lemma {:induction false} CountPrefix(evs: seq<Event>, i: nat, b: Base)
    requires i < |evs|
    ensures Count(evs[..i], b) + (if BaseOf(evs[i]) == Some(b) then 1 else 0) <= Count(evs, b)
  {
    var n := |evs| - 1;
    if i < n {
      CountPrefix(evs[..n], i, b);
      assert evs[..n][..i] == evs[..i];
    }
  }

  lemma {:induction false} IndexIsCounted(logs: seq<Event>, ixs: seq<Event>, n: nat, k: Key)
    requires n <= |ixs|
    ensures CountedIndex(logs, ixs, n, k)
  {
    if n == 0 {
      LogIndexFinds(logs, k);
    } else if k.Occurrence? {
      IndexIsCounted(logs, ixs, n - 1, k);
      CountedIndexNext(logs, ixs, n - 1, k);
    }
  }

  lemma CountedIndexNext(logs: seq<Event>, ixs: seq<Event>, i: nat, k: Key)
    requires i < |ixs| && k.Occurrence? && CountedIndex(logs, ixs, i, k)
    ensures CountedIndex(logs, ixs, i + 1, k)
  {
    CountNext(ixs, i, k.base);
    CountPrefix(ixs, i, k.base);
    if KeyAt(ixs, i).Some? {
      KeyOfBase(ixs[i], Number(ixs, i), KeyAt(ixs, i).value);
    }
  }

  lemma {:induction false} SlotsGrow(logs: seq<Event>, ixs: seq<Event>, n: nat, m: nat)
    requires n <= m <= |ixs|
    ensures RunPass(logs, ixs, n).slots == RunPass(logs, ixs, m).slots[..n]
  {
    if n < m {
      SlotsGrow(logs, ixs, n, m - 1);
    }
  }

  // The places all instructions went to.
  function Slots(logs: seq<Event>, ixs: seq<Event>): (r: seq<nat>)
    ensures |r| == |ixs|
  {
    RunPass(logs, ixs, |ixs|).slots
  }

  lemma SlotAt(logs: seq<Event>, ixs: seq<Event>, i: nat)
    requires i < |ixs|
    ensures Slots(logs, ixs)[..i] == RunPass(logs, ixs, i).slots
    ensures Places(logs, Slots(logs, ixs)[..i]) == |RunPass(logs, ixs, i).out|
    ensures Slots(logs, ixs)[i] == PassStep(RunPass(logs, ixs, i), ixs[i], KeyAt(ixs, i)).slots[i]
  {
    SlotsGrow(logs, ixs, i + 1, |ixs|);
    SlotsGrow(logs, ixs, i, |ixs|);
    PassConserves(logs, ixs, i);
    assert RunPass(logs, ixs, i + 1) == PassStep(RunPass(logs, ixs, i), ixs[i], KeyAt(ixs, i));
  }

  /**
   The i-th instruction of a counted base: if both sources hold the base equally often, it joins
   exactly the log event of the same number; otherwise it joins nothing and gets the next place.
   */
  lemma PairsByNumber(logs: seq<Event>, ixs: seq<Event>, i: nat)
    requires i < |ixs| && BaseOf(ixs[i]).Some?
    ensures var b, k, slots := BaseOf(ixs[i]).value, Number(ixs, i), Slots(logs, ixs);
            if Balanced(logs, ixs, b) then k < Count(logs, b) && slots[i] == Kth(logs, b, k)
            else slots[i] == Places(logs, slots[..i])
  {
    var b := BaseOf(ixs[i]).value;
    CountPrefix(ixs, i, b);
    IndexIsCounted(logs, ixs, i, Occurrence(b, Number(ixs, i)));
    SlotAt(logs, ixs, i);
  }

  lemma {:induction false} PlainStays(logs: seq<Event>, ixs: seq<Event>, n: nat, k: Key)
    requires n <= |ixs| && !k.Occurrence? && LastWith(logs, k).Some?
    ensures k in RunPass(logs, ixs, n).index && RunPass(logs, ixs, n).index[k] == LastWith(logs, k).value
  {
    LogIndexFinds(logs, k);
    if n > 0 {
      PlainStays(logs, ixs, n - 1, k);
    }
  }

  /** An instruction whose key is not counted joins the last log event with that key, if there is one. */
  lemma PlainJoinsLast(logs: seq<Event>, ixs: seq<Event>, i: nat)
    requires i < |ixs| && KeyAt(ixs, i).Some? && !KeyAt(ixs, i).value.Occurrence?
    requires LastWith(logs, KeyAt(ixs, i).value).Some?
    ensures Slots(logs, ixs)[i] == LastWith(logs, KeyAt(ixs, i).value).value
  {
    PlainStays(logs, ixs, i, KeyAt(ixs, i).value);
    SlotAt(logs, ixs, i);
  }

  // The first of the first `n` instructions with a key.
  function FirstWith(ixs: seq<Event>, k: Key, n: nat): (r: Option<nat>)
    requires n <= |ixs|
    ensures r.Some? ==> r.value < n && KeyAt(ixs, r.value) == Some(k)
  {
    if n == 0 then None
    else if FirstWith(ixs, k, n - 1).Some? then FirstWith(ixs, k, n - 1)
    else if KeyAt(ixs, n - 1) == Some(k) then Some(n - 1)
    else None
  }

  // An uncounted key without a log event leads to the place that its first instruction opened.
  ghost predicate FirstIsIndexed(logs: seq<Event>, ixs: seq<Event>, n: nat, k: Key)
    requires n <= |ixs|
  {
    match FirstWith(ixs, k, n)
    case None => k !in RunPass(logs, ixs, n).index
    case Some(j) => k in RunPass(logs, ixs, n).index && RunPass(logs, ixs, n).index[k] == |RunPass(logs, ixs, j).out|
  }

  lemma {:induction false} PlainOpens(logs: seq<Event>, ixs: seq<Event>, n: nat, k: Key)
    requires n <= |ixs| && !k.Occurrence? && LastWith(logs, k).None?
    ensures FirstIsIndexed(logs, ixs, n, k)
  {
    LogIndexFinds(logs, k);
    if n > 0 {
      PlainOpens(logs, ixs, n - 1, k);
    }
  }

  /**
   If no log event has its key, the first instruction with an uncounted key gets the next place, and every
   later one joins it there.
   */
  lemma PlainJoinsFirst(logs: seq<Event>, ixs: seq<Event>, i: nat)
    requires i < |ixs| && KeyAt(ixs, i).Some? && !KeyAt(ixs, i).value.Occurrence?
    requires LastWith(logs, KeyAt(ixs, i).value).None?
    ensures match FirstWith(ixs, KeyAt(ixs, i).value, i)
            case None => Slots(logs, ixs)[i] == Places(logs, Slots(logs, ixs)[..i])
            case Some(j) => Slots(logs, ixs)[i] == Slots(logs, ixs)[j] == Places(logs, Slots(logs, ixs)[..j])
  {
    var k := KeyAt(ixs, i).value;
    PlainOpens(logs, ixs, i, k);
    SlotAt(logs, ixs, i);
    if FirstWith(ixs, k, i).Some? {
      FirstIsFirst(ixs, k, i);
      FirstOpens(logs, ixs, FirstWith(ixs, k, i).value, k);
    }
  }

  lemma {:induction false} FirstIsFirst(ixs: seq<Event>, k: Key, n: nat)
    requires n <= |ixs| && FirstWith(ixs, k, n).Some?
    ensures FirstWith(ixs, k, FirstWith(ixs, k, n).value) == None
  {
    if FirstWith(ixs, k, n - 1).Some? {
      FirstIsFirst(ixs, k, n - 1);
    }
  }

  lemma FirstOpens(logs: seq<Event>, ixs: seq<Event>, j: nat, k: Key)
    requires j < |ixs| && KeyAt(ixs, j) == Some(k) && !k.Occurrence? && LastWith(logs, k).None? && FirstWith(ixs, k, j).None?
    ensures Slots(logs, ixs)[j] == Places(logs, Slots(logs, ixs)[..j]) == |RunPass(logs, ixs, j).out|
  {
    PlainOpens(logs, ixs, j, k);
    SlotAt(logs, ixs, j);
  }

  /** An instruction without a key joins nothing. */
  lemma UnkeyedStandsAlone(logs: seq<Event>, ixs: seq<Event>, i: nat)
    requires i < |ixs| && KeyAt(ixs, i).None?
    ensures Slots(logs, ixs)[i] == Places(logs, Slots(logs, ixs)[..i])
  {
    SlotAt(logs, ixs, i);
  }
}
