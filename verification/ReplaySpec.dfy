/**
 Which updates a subscription parses when a reconnected stream delivers some of them again. The
 state lives as long as the subscription; the updates and the failures of the stream are inputs.
 */
module ReplaySpec {
  import opened Prelude
  import opened Fingerprints

  type Key = nat

  // One update of the stream. Everything the node may leave out is optional.
  datatype Update =
    | Transaction(slot: Option<nat>, signature: Option<Key>)
    | Account(slot: Option<nat>, account: Option<Version>)
    | Block(slot: Option<nat>, hash: Key)
    | Other

  datatype Version = Version(pubkey: Option<Key>, writeVersion: Option<nat>, contents: Contents)

  datatype Id =
    | TransactionId(signature: Key)
    | BlockId(blockSlot: Option<nat>, hash: Key)
    | AccountId(pubkey: Key, accountSlot: nat, writeVersion: nat)

  function OrZero(n: Option<nat>): nat {
    if n.Some? then n.value else 0
  }

  function SlotOf(u: Update): Option<nat> {
    if u.Other? then None else u.slot
  }

  function IdOf(u: Update): Option<Id> {
    match u
    case Transaction(_, signature) => if signature.Some? then Some(TransactionId(signature.value)) else None
    case Block(slot, hash) => Some(BlockId(slot, hash))
    case Account(slot, account) =>
      if account.Some? && account.value.pubkey.Some?
      then Some(AccountId(account.value.pubkey.value, OrZero(slot), OrZero(account.value.writeVersion))) else None
    case Other => None
  }

  function ContentsOf(u: Update): Option<Contents> {
    if u.Account? && u.account.Some? then Some(u.account.value.contents) else None
  }

  function FingerprintOf(u: Update): Option<Fingerprint> {
    if ContentsOf(u).Some? then Some(Print(ContentsOf(u).value)) else None
  }

  datatype Outcome = Conflict | Replayed | Failed | Parsed

  datatype Entry = Entry(id: Id, slot: nat)

  // What is remembered: identities with their slots, fingerprints, and the order of arrival.
  datatype Memory = Memory(seen: map<Id, nat>, fingerprints: map<Id, Fingerprint>, order: seq<Entry>)

  datatype State = State(memory: Memory, last: Option<nat>, highest: nat, replayed: nat)

  const EMPTY: State := State(Memory(map[], map[], []), None, 0, 0)

  function RetainFrom(highest: nat, window: nat): nat {
    if highest > window then highest - window else 0
  }

  function Forget(m: Memory, e: Entry): Memory {
    if e.id in m.seen && m.seen[e.id] == e.slot
    then m.(seen := m.seen - {e.id}, fingerprints := m.fingerprints - {e.id}) else m
  }

  // Oldest arrivals go first, until one is to be retained.
  function Evict(m: Memory, from: nat): Memory
    decreases |m.order|
  {
    if m.order == [] || m.order[0].slot >= from then m
    else Evict(Forget(m, m.order[0]).(order := m.order[1..]), from)
  }

  function Raise(last: Option<nat>, slot: Option<nat>): Option<nat> {
    if slot.Some? && (last.None? || slot.value > last.value) then slot else last
  }

  function Max(a: nat, b: nat): nat {
    if b > a then b else a
  }

  function Note(m: Memory, id: Id, slot: nat, fingerprint: Option<Fingerprint>): Memory {
    Memory(m.seen[id := slot],
           if fingerprint.Some? then m.fingerprints[id := fingerprint.value] else m.fingerprints,
           m.order + [Entry(id, slot)])
  }

  function Remember(s: State, id: Option<Id>, slot: Option<nat>, fingerprint: Option<Fingerprint>, window: nat): State {
    var raised := s.(last := Raise(s.last, slot));
    if id.None? || slot.None? then raised
    else
      raised.(highest := Max(s.highest, slot.value),
              memory := Evict(Note(s.memory, id.value, slot.value, fingerprint),
                              RetainFrom(Max(s.highest, slot.value), window)))
  }

  predicate Conflicts(m: Memory, u: Update) {
    IdOf(u).Some? && FingerprintOf(u).Some?
    && IdOf(u).value in m.fingerprints && m.fingerprints[IdOf(u).value] != FingerprintOf(u).value
  }

  predicate Recognised(m: Memory, u: Update) {
    IdOf(u).Some? && IdOf(u).value in m.seen
  }

  // Settings of a subscription. The window is a positive number of slots.
  datatype Settings = Settings(replay: bool, window: nat)

  // An update and whether parsing it succeeds.
  datatype Input = Input(update: Update, parses: bool)

  function OutcomeOf(m: Memory, i: Input, cfg: Settings): Outcome {
    if Conflicts(m, i.update) then Conflict
    else if cfg.replay && Recognised(m, i.update) then Replayed
    else if !i.parses then Failed
    else Parsed
  }

  function Process(s: State, i: Input, cfg: Settings): State {
    match OutcomeOf(s.memory, i, cfg)
    case Conflict => s
    case Replayed => Remember(s.(replayed := s.replayed + 1), None, SlotOf(i.update), None, cfg.window)
    case Failed => s
    case Parsed => Remember(s, IdOf(i.update), SlotOf(i.update), FingerprintOf(i.update), cfg.window)
  }

  function Run(inputs: seq<Input>, cfg: Settings): State {
    if inputs == [] then EMPTY
    else Process(Run(inputs[..|inputs| - 1], cfg), inputs[|inputs| - 1], cfg)
  }

  // What became of the `k`-th update.
  function OutcomeAt(inputs: seq<Input>, k: nat, cfg: Settings): Outcome
    requires k < |inputs|
  {
    OutcomeOf(Run(inputs[..k], cfg).memory, inputs[k], cfg)
  }

  // ----- Connections -----

  datatype Op =
    | Receive(input: Input)
    | Connect
    | ConnectFails
    | Fail(receivedData: bool, unsupported: bool)

  datatype Session = Session(state: State, attempt: nat, replayAllowed: bool, attemptedReplay: bool)

  // Where the next connection asks the stream to resume, if at all.
  function FromSlot(s: Session): Option<nat> {
    if s.attempt > 0 && s.replayAllowed then s.state.last else None
  }

  function Step(s: Session, op: Op, cfg: Settings): Session {
    match op
    case Receive(input) => s.(state := Process(s.state, input, cfg))
    case Connect => s.(attempt := s.attempt + 1, attemptedReplay := FromSlot(s).Some?)
    case ConnectFails => s.(attempt := s.attempt + 1, attemptedReplay := false)
    case Fail(receivedData, unsupported) =>
      s.(replayAllowed := s.replayAllowed && !(s.attemptedReplay && !receivedData && unsupported))
  }

  function RunOps(ops: seq<Op>, cfg: Settings): Session {
    if ops == [] then Session(EMPTY, 0, cfg.replay, false)
    else Step(RunOps(ops[..|ops| - 1], cfg), ops[|ops| - 1], cfg)
  }

  function Received(ops: seq<Op>): seq<Input> {
    if ops == [] then []
    else Received(ops[..|ops| - 1]) + if ops[|ops| - 1].Receive? then [ops[|ops| - 1].input] else []
  }
}
