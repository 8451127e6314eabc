/** What every run of a subscription keeps: no update in the window is parsed twice. */
module ReplayProofs {
  import opened Prelude
  import opened Fingerprints
  import opened ReplaySpec

  // ----- Eviction -----

  ghost predicate Fingerprinted(m: Memory) {
    m.fingerprints.Keys <= m.seen.Keys
  }

  lemma {:induction false} EvictKeeps(m: Memory, from: nat, id: Id)
    ensures Evict(m, from).seen.Keys <= m.seen.Keys && Evict(m, from).fingerprints.Keys <= m.fingerprints.Keys
    ensures id in m.seen && m.seen[id] >= from ==> id in Evict(m, from).seen
    ensures id in m.seen && m.seen[id] >= from && id in m.fingerprints ==> id in Evict(m, from).fingerprints
    ensures id in Evict(m, from).seen ==> Evict(m, from).seen[id] == m.seen[id]
    ensures id in Evict(m, from).fingerprints ==> Evict(m, from).fingerprints[id] == m.fingerprints[id]
    ensures Fingerprinted(m) ==> Fingerprinted(Evict(m, from))
    decreases |m.order|
  {
    if m.order != [] && m.order[0].slot < from {
      EvictKeeps(Forget(m, m.order[0]).(order := m.order[1..]), from, id);
    }
  }

  // ----- What one parsed update leaves behind -----

  // The slot of an account or block version is part of its identity.
  predicate FitsSlot(id: Id, slot: nat) {
    match id
    case TransactionId(_) => true
    case BlockId(s, _) => s == Some(slot)
    case AccountId(_, s, _) => s == slot
  }

  lemma IdFitsSlot(u: Update)
    requires IdOf(u).Some? && SlotOf(u).Some?
    ensures FitsSlot(IdOf(u).value, SlotOf(u).value)
  {
  }

  ghost predicate AllFit(m: Memory) {
    forall id :: id in m.seen ==> FitsSlot(id, m.seen[id])
  }

  // `id` was remembered at `slot`, and if that is still in the window, it is remembered now.
  ghost predicate Kept(s: State, u: Update, window: nat) {
    && IdOf(u).Some? && SlotOf(u).Some?
    && SlotOf(u).value <= s.highest
    && (SlotOf(u).value >= RetainFrom(s.highest, window) ==>
          && IdOf(u).value in s.memory.seen && s.memory.seen[IdOf(u).value] == SlotOf(u).value
          && (FingerprintOf(u).Some? ==>
                IdOf(u).value in s.memory.fingerprints && s.memory.fingerprints[IdOf(u).value] == FingerprintOf(u).value))
  }

  ghost predicate Sound(s: State) {
    Fingerprinted(s.memory) && AllFit(s.memory)
  }

  lemma NoteIsSound(m: Memory, id: Id, slot: nat, fingerprint: Option<Fingerprint>)
    requires Fingerprinted(m) && AllFit(m) && FitsSlot(id, slot)
    ensures Fingerprinted(Note(m, id, slot, fingerprint)) && AllFit(Note(m, id, slot, fingerprint))
  {
  }

  lemma EvictIsSound(m: Memory, from: nat)
    requires Fingerprinted(m) && AllFit(m)
    ensures Fingerprinted(Evict(m, from)) && AllFit(Evict(m, from))
  {
    forall id | id in Evict(m, from).seen
      ensures FitsSlot(id, Evict(m, from).seen[id])
    {
      EvictKeeps(m, from, id);
    }
    if id :| id in m.seen {
      EvictKeeps(m, from, id);
    } else {
      EvictKeeps(m, from, BlockId(None, 0));
    }
  }

  lemma StepIsSound(s: State, i: Input, cfg: Settings)
    requires Sound(s)
    ensures Sound(Process(s, i, cfg)) && s.highest <= Process(s, i, cfg).highest
  {
    var u := i.update;
    if OutcomeOf(s.memory, i, cfg).Parsed? && IdOf(u).Some? && SlotOf(u).Some? {
      var id, slot := IdOf(u).value, SlotOf(u).value;
      IdFitsSlot(u);
      NoteIsSound(s.memory, id, slot, FingerprintOf(u));
      EvictIsSound(Note(s.memory, id, slot, FingerprintOf(u)), RetainFrom(Max(s.highest, slot), cfg.window));
    }
  }

  lemma RetainGrows(a: nat, b: nat, window: nat)
    requires a <= b
    ensures RetainFrom(a, window) <= RetainFrom(b, window)
  {
  }

  // A parsed update with an identity and a slot is kept from now on.
  lemma ParsedIsKept(s: State, i: Input, cfg: Settings)
    requires OutcomeOf(s.memory, i, cfg).Parsed? && IdOf(i.update).Some? && SlotOf(i.update).Some?
    ensures Kept(Process(s, i, cfg), i.update, cfg.window)
  {
    var u := i.update;
    var id, slot := IdOf(u).value, SlotOf(u).value;
    EvictKeeps(Note(s.memory, id, slot, FingerprintOf(u)), RetainFrom(Max(s.highest, slot), cfg.window), id);
  }

  // Noting another update does not disturb what is known of `u`.
  lemma NoteKeeps(m: Memory, v: Update, u: Update)
    requires IdOf(u).Some? && IdOf(v).Some? && SlotOf(u).Some? && SlotOf(v).Some?
    requires IdOf(u).value in m.seen && m.seen[IdOf(u).value] == SlotOf(u).value
    requires FingerprintOf(u).Some? ==>
               IdOf(u).value in m.fingerprints && m.fingerprints[IdOf(u).value] == FingerprintOf(u).value
    requires !Conflicts(m, v)
    requires IdOf(v) == IdOf(u) ==> SlotOf(v) == SlotOf(u)
    ensures var n := Note(m, IdOf(v).value, SlotOf(v).value, FingerprintOf(v));
            && IdOf(u).value in n.seen && n.seen[IdOf(u).value] == SlotOf(u).value
            && (FingerprintOf(u).Some? ==>
                  IdOf(u).value in n.fingerprints && n.fingerprints[IdOf(u).value] == FingerprintOf(u).value)
  {
  }

  lemma KeptStays(s: State, i: Input, cfg: Settings, u: Update)
    requires Sound(s) && Kept(s, u, cfg.window)
    requires cfg.replay || !IdOf(u).value.TransactionId?
    ensures Kept(Process(s, i, cfg), u, cfg.window)
  {
    var v := i.update;
    if OutcomeOf(s.memory, i, cfg).Parsed? && IdOf(v).Some? && SlotOf(v).Some? {
      var highest := Max(s.highest, SlotOf(v).value);
      RetainGrows(s.highest, highest, cfg.window);
      if SlotOf(u).value >= RetainFrom(highest, cfg.window) {
        IdFitsSlot(u);
        IdFitsSlot(v);
        NoteKeeps(s.memory, v, u);
        EvictKeeps(Note(s.memory, IdOf(v).value, SlotOf(v).value, FingerprintOf(v)),
                   RetainFrom(highest, cfg.window), IdOf(u).value);
      }
    }
  }

  // ----- Runs -----

  lemma RunNext(inputs: seq<Input>, k: nat, cfg: Settings)
    requires k < |inputs|
    ensures Run(inputs[..k + 1], cfg) == Process(Run(inputs[..k], cfg), inputs[k], cfg)
  {
    assert inputs[..k + 1][..k] == inputs[..k];
  }

  lemma {:induction false} RunIsSound(inputs: seq<Input>, k: nat, cfg: Settings)
    requires k <= |inputs|
    ensures Sound(Run(inputs[..k], cfg))
  {
    if k > 0 {
      RunIsSound(inputs, k - 1, cfg);
      RunNext(inputs, k - 1, cfg);
      StepIsSound(Run(inputs[..k - 1], cfg), inputs[k - 1], cfg);
    }
  }

  lemma {:induction false} RunKeeps(inputs: seq<Input>, j: nat, k: nat, cfg: Settings)
    requires j < k <= |inputs| && OutcomeAt(inputs, j, cfg).Parsed?
    requires IdOf(inputs[j].update).Some? && SlotOf(inputs[j].update).Some?
    requires cfg.replay || !IdOf(inputs[j].update).value.TransactionId?
    ensures Kept(Run(inputs[..k], cfg), inputs[j].update, cfg.window)
  {
    RunNext(inputs, k - 1, cfg);
    if j == k - 1 {
      ParsedIsKept(Run(inputs[..j], cfg), inputs[j], cfg);
    } else {
      RunKeeps(inputs, j, k - 1, cfg);
      RunIsSound(inputs, k - 1, cfg);
      KeptStays(Run(inputs[..k - 1], cfg), inputs[k - 1], cfg, inputs[j].update);
    }
  }

  // The slot of update `j` is within the window when update `k` arrives.
  ghost predicate InWindow(inputs: seq<Input>, j: nat, k: nat, cfg: Settings)
    requires j < k < |inputs|
  {
    SlotOf(inputs[j].update).Some? &&
    SlotOf(inputs[j].update).value >= RetainFrom(Run(inputs[..k], cfg).highest, cfg.window)
  }

  /**
   For every run with replay enabled: once an update was parsed and while its slot is in the window,
   an update with the same identity is never parsed again, whatever was evicted in between. It is
   refused if its fingerprint differs, and counts as replayed otherwise.
   */
  lemma NeverParsedAgain(inputs: seq<Input>, j: nat, k: nat, cfg: Settings)
    requires j < k < |inputs| && cfg.replay && OutcomeAt(inputs, j, cfg).Parsed?
    requires IdOf(inputs[j].update).Some? && IdOf(inputs[k].update) == IdOf(inputs[j].update)
    requires InWindow(inputs, j, k, cfg)
    ensures OutcomeAt(inputs, k, cfg) ==
            if FingerprintOf(inputs[j].update) != FingerprintOf(inputs[k].update) then Conflict else Replayed
  {
    RunKeeps(inputs, j, k, cfg);
    RunIsSound(inputs, k, cfg);
    SameIdSameKind(inputs[j].update, inputs[k].update);
  }

  lemma SameIdSameKind(u: Update, v: Update)
    requires IdOf(u).Some? && IdOf(u) == IdOf(v)
    ensures FingerprintOf(u).Some? <==> FingerprintOf(v).Some?
    ensures FingerprintOf(u).Some? <==> IdOf(u).value.AccountId?
  {
  }

  // Two contents of one account version reach the subscription, the first is parsed and in the window.
  ghost predicate Rivals(inputs: seq<Input>, j: nat, k: nat, cfg: Settings)
    requires j < k < |inputs|
  {
    && OutcomeAt(inputs, j, cfg).Parsed? && InWindow(inputs, j, k, cfg)
    && IdOf(inputs[j].update).Some? && IdOf(inputs[k].update) == IdOf(inputs[j].update)
    && ContentsOf(inputs[j].update).Some? && ContentsOf(inputs[k].update).Some?
  }

  /**
   With or without replay: the second of two contents of one account version is refused if and only if
   they differ in the flag, in the epoch, or in owner, data and the digits of the lamports in a row.
   */
  lemma ConflictIsRefused(inputs: seq<Input>, j: nat, k: nat, cfg: Settings)
    requires j < k < |inputs| && Rivals(inputs, j, k, cfg)
    ensures OutcomeAt(inputs, k, cfg).Conflict? <==>
            !Alike(ContentsOf(inputs[j].update).value, ContentsOf(inputs[k].update).value)
  {
    SameIdSameKind(inputs[j].update, inputs[k].update);
    RunKeeps(inputs, j, k, cfg);
    PrintsExactly(ContentsOf(inputs[j].update).value, ContentsOf(inputs[k].update).value);
  }

  /** Data of one size under owners of one size: the second is refused exactly if anything differs. */
  lemma SameSizeIsRefused(inputs: seq<Input>, j: nat, k: nat, cfg: Settings)
    requires j < k < |inputs| && Rivals(inputs, j, k, cfg)
    requires SameSize(ContentsOf(inputs[j].update).value, ContentsOf(inputs[k].update).value)
    ensures OutcomeAt(inputs, k, cfg).Conflict? <==> ContentsOf(inputs[j].update) != ContentsOf(inputs[k].update)
  {
    ConflictIsRefused(inputs, j, k, cfg);
    SameSizeIsToldApart(ContentsOf(inputs[j].update).value, ContentsOf(inputs[k].update).value);
  }

  function AccountOf(c: Contents): Input {
    Input(Account(Some(1), Some(Version(Some(0), Some(0), c))), true)
  }

  lemma AfterFirst(i: Input, cfg: Settings)
    requires i.parses && IdOf(i.update).Some? && SlotOf(i.update) == Some(1)
    ensures OutcomeOf(EMPTY.memory, i, cfg).Parsed?
    ensures var m := Process(EMPTY, i, cfg).memory;
            IdOf(i.update).value in m.seen
            && (FingerprintOf(i.update).Some? ==> IdOf(i.update).value in m.fingerprints && m.fingerprints[IdOf(i.update).value] == FingerprintOf(i.update).value)
  {
    ParsedIsKept(EMPTY, i, cfg);
  }

  lemma TwoInputs(i: Input, j: Input, cfg: Settings)
    ensures OutcomeAt([i, j], 0, cfg) == OutcomeOf(EMPTY.memory, i, cfg)
    ensures OutcomeAt([i, j], 1, cfg) == OutcomeOf(Process(EMPTY, i, cfg).memory, j, cfg)
  {
    RunNext([i, j], 0, cfg);
  }

  /** Two contents of one account version that differ, and both are parsed where replay is off. */
  lemma BothAreParsed(owner: Bytes, data: Bytes, cfg: Settings)
    ensures var (c, d) := Colliding(owner, data);
            c != d && IdOf(AccountOf(c).update) == IdOf(AccountOf(d).update)
            && OutcomeAt([AccountOf(c), AccountOf(d)], 0, cfg).Parsed?
            && OutcomeAt([AccountOf(c), AccountOf(d)], 1, cfg) == if cfg.replay then Replayed else Parsed
  {
    var (c, d) := Colliding(owner, data);
    CollidingAreAlike(owner, data);
    PrintsExactly(c, d);
    AfterFirst(AccountOf(c), cfg);
    TwoInputs(AccountOf(c), AccountOf(d), cfg);
  }

  // Whatever is remembered was parsed.
  ghost predicate ParsedBefore(inputs: seq<Input>, k: nat, id: Id, cfg: Settings)
    requires k <= |inputs|
  {
    exists j :: 0 <= j < k && OutcomeAt(inputs, j, cfg).Parsed? && IdOf(inputs[j].update) == Some(id)
  }

  ghost predicate ParsedAs(inputs: seq<Input>, k: nat, id: Id, fingerprint: Fingerprint, cfg: Settings)
    requires k <= |inputs|
  {
    exists j :: 0 <= j < k && OutcomeAt(inputs, j, cfg).Parsed? && IdOf(inputs[j].update) == Some(id)
                && FingerprintOf(inputs[j].update) == Some(fingerprint)
  }

  // What a run remembers after one more update was remembered before, or is of that update.
  lemma MemoryNext(inputs: seq<Input>, k: nat, id: Id, cfg: Settings)
    requires k < |inputs|
    ensures var m, n := Run(inputs[..k], cfg).memory, Run(inputs[..k + 1], cfg).memory;
            var now := OutcomeAt(inputs, k, cfg).Parsed? && IdOf(inputs[k].update) == Some(id);
            && (id in n.seen ==> id in m.seen || now)
            && (id in n.fingerprints ==>
                  || (id in m.fingerprints && n.fingerprints[id] == m.fingerprints[id])
                  || (now && FingerprintOf(inputs[k].update) == Some(n.fingerprints[id])))
  {
    RunNext(inputs, k, cfg);
    var before, u := Run(inputs[..k], cfg), inputs[k].update;
    if OutcomeAt(inputs, k, cfg).Parsed? && IdOf(u).Some? && SlotOf(u).Some? {
      EvictKeeps(Note(before.memory, IdOf(u).value, SlotOf(u).value, FingerprintOf(u)),
                 RetainFrom(Max(before.highest, SlotOf(u).value), cfg.window), id);
    }
  }

  lemma {:induction false} SeenWasParsed(inputs: seq<Input>, k: nat, id: Id, cfg: Settings)
    requires k <= |inputs|
    ensures id in Run(inputs[..k], cfg).memory.seen ==> ParsedBefore(inputs, k, id, cfg)
  {
    if k > 0 {
      MemoryNext(inputs, k - 1, id, cfg);
      SeenWasParsed(inputs, k - 1, id, cfg);
    }
  }

  lemma {:induction false} FingerprintWasParsed(inputs: seq<Input>, k: nat, id: Id, cfg: Settings)
    requires k <= |inputs|
    ensures id in Run(inputs[..k], cfg).memory.fingerprints ==>
              ParsedAs(inputs, k, id, Run(inputs[..k], cfg).memory.fingerprints[id], cfg)
  {
    if k > 0 {
      MemoryNext(inputs, k - 1, id, cfg);
      FingerprintWasParsed(inputs, k - 1, id, cfg);
    }
  }

  /** Nothing is skipped or refused without cause: the same identity was parsed before. */
  lemma OnlyParsedIsRecognised(inputs: seq<Input>, k: nat, cfg: Settings)
    requires k < |inputs|
    ensures OutcomeAt(inputs, k, cfg).Replayed? ==>
              IdOf(inputs[k].update).Some? && ParsedBefore(inputs, k, IdOf(inputs[k].update).value, cfg)
    ensures OutcomeAt(inputs, k, cfg).Conflict? ==>
              && IdOf(inputs[k].update).Some?
              && exists c: Fingerprint :: Some(c) != FingerprintOf(inputs[k].update)
                             && ParsedAs(inputs, k, IdOf(inputs[k].update).value, c, cfg)
  {
    if IdOf(inputs[k].update).Some? {
      SeenWasParsed(inputs, k, IdOf(inputs[k].update).value, cfg);
      FingerprintWasParsed(inputs, k, IdOf(inputs[k].update).value, cfg);
    }
  }

  // ----- The slot to resume from -----

  // An update was processed if it was parsed or recognised as replayed.
  predicate Processed(inputs: seq<Input>, k: nat, cfg: Settings)
    requires k < |inputs|
  {
    OutcomeAt(inputs, k, cfg).Parsed? || OutcomeAt(inputs, k, cfg).Replayed?
  }

  predicate ProcessedAt(inputs: seq<Input>, k: nat, cfg: Settings, slot: nat)
    requires k < |inputs|
  {
    Processed(inputs, k, cfg) && SlotOf(inputs[k].update) == Some(slot)
  }

  ghost predicate BoundsProcessed(inputs: seq<Input>, k: nat, cfg: Settings, last: Option<nat>)
    requires k <= |inputs|
  {
    forall j: nat, slot: nat :: j < k && ProcessedAt(inputs, j, cfg, slot) ==> last.Some? && slot <= last.value
  }

  ghost predicate WasProcessed(inputs: seq<Input>, k: nat, cfg: Settings, slot: nat)
    requires k <= |inputs|
  {
    exists j: nat :: j < k && ProcessedAt(inputs, j, cfg, slot)
  }

  lemma LastNext(inputs: seq<Input>, k: nat, cfg: Settings)
    requires k < |inputs|
    ensures Run(inputs[..k + 1], cfg).last ==
            if Processed(inputs, k, cfg) then Raise(Run(inputs[..k], cfg).last, SlotOf(inputs[k].update)) else Run(inputs[..k], cfg).last
  {
    RunNext(inputs, k, cfg);
  }

  lemma OneMoreBounded(inputs: seq<Input>, k: nat, cfg: Settings, before: Option<nat>, after: Option<nat>)
    requires k < |inputs| && BoundsProcessed(inputs, k, cfg, before)
    requires after == if Processed(inputs, k, cfg) then Raise(before, SlotOf(inputs[k].update)) else before
    ensures BoundsProcessed(inputs, k + 1, cfg, after)
  {
    forall j: nat, slot: nat | j < k + 1 && ProcessedAt(inputs, j, cfg, slot)
      ensures after.Some? && slot <= after.value
    {
      if j == k {
        assert Processed(inputs, k, cfg) && SlotOf(inputs[k].update) == Some(slot);
      }
    }
  }

  lemma OneMoreProcessed(inputs: seq<Input>, k: nat, cfg: Settings, before: Option<nat>, after: Option<nat>)
    requires k < |inputs| && (before.Some? ==> WasProcessed(inputs, k, cfg, before.value))
    requires after == if Processed(inputs, k, cfg) then Raise(before, SlotOf(inputs[k].update)) else before
    ensures after.Some? ==> WasProcessed(inputs, k + 1, cfg, after.value)
  {
    if after.Some? {
      if after == before {
        var j: nat :| j < k && ProcessedAt(inputs, j, cfg, before.value);
      } else {
        assert ProcessedAt(inputs, k, cfg, after.value);
      }
    }
  }

  /** The resume slot is the greatest slot of the updates processed, and absent only if none had one. */
  lemma {:induction false} ResumesFromHighest(inputs: seq<Input>, k: nat, cfg: Settings)
    requires k <= |inputs|
    ensures BoundsProcessed(inputs, k, cfg, Run(inputs[..k], cfg).last)
    ensures Run(inputs[..k], cfg).last.Some? ==> WasProcessed(inputs, k, cfg, Run(inputs[..k], cfg).last.value)
  {
    if k > 0 {
      LastNext(inputs, k - 1, cfg);
      ResumesFromHighest(inputs, k - 1, cfg);
      OneMoreBounded(inputs, k - 1, cfg, Run(inputs[..k - 1], cfg).last, Run(inputs[..k], cfg).last);
      OneMoreProcessed(inputs, k - 1, cfg, Run(inputs[..k - 1], cfg).last, Run(inputs[..k], cfg).last);
    }
  }

  // ----- Reconnecting -----

  lemma {:induction false} SessionReceives(ops: seq<Op>, cfg: Settings)
    ensures RunOps(ops, cfg).state == Run(Received(ops), cfg)
  {
    if ops != [] {
      var n := |ops| - 1;
      SessionReceives(ops[..n], cfg);
      if ops[n].Receive? {
        assert Received(ops)[..|Received(ops)| - 1] == Received(ops[..n]);
      } else {
        assert Received(ops) == Received(ops[..n]);
      }
    }
  }

  // At `k`, the node refused an attempt to replay.
  predicate Refused(ops: seq<Op>, k: nat, cfg: Settings)
    requires k < |ops|
  {
    ops[k].Fail? && !ops[k].receivedData && ops[k].unsupported && RunOps(ops[..k], cfg).attemptedReplay
  }

  ghost predicate EverRefused(ops: seq<Op>, cfg: Settings) {
    exists k: nat :: k < |ops| && Refused(ops, k, cfg)
  }

  predicate Dials(op: Op) {
    op.Connect? || op.ConnectFails?
  }

  ghost predicate DialledBefore(ops: seq<Op>) {
    exists k :: 0 <= k < |ops| && Dials(ops[k])
  }

  lemma RefusedInPrefix(ops: seq<Op>, cfg: Settings)
    requires ops != []
    ensures EverRefused(ops, cfg) <==> EverRefused(ops[..|ops| - 1], cfg) || Refused(ops, |ops| - 1, cfg)
  {
    var n, before := |ops| - 1, ops[..|ops| - 1];
    forall k: nat | k < n
      ensures Refused(ops, k, cfg) <==> Refused(before, k, cfg)
    {
      assert ops[..k] == before[..k];
    }
    if EverRefused(ops, cfg) {
      var k: nat :| k < |ops| && Refused(ops, k, cfg);
      assert k == n || Refused(before, k, cfg);
    }
    if EverRefused(before, cfg) {
      var k: nat :| k < n && Refused(before, k, cfg);
      assert Refused(ops, k, cfg);
    }
  }

  lemma {:induction false} AllowedUnlessRefused(ops: seq<Op>, cfg: Settings)
    ensures RunOps(ops, cfg).replayAllowed <==> cfg.replay && !EverRefused(ops, cfg)
  {
    if ops != [] {
      AllowedUnlessRefused(ops[..|ops| - 1], cfg);
      RefusedInPrefix(ops, cfg);
    }
  }

  lemma DialledInPrefix(ops: seq<Op>)
    requires ops != []
    ensures DialledBefore(ops) <==> DialledBefore(ops[..|ops| - 1]) || Dials(ops[|ops| - 1])
  {
    var before := ops[..|ops| - 1];
    if DialledBefore(before) {
      var k :| 0 <= k < |before| && Dials(before[k]);
      assert Dials(ops[k]);
    }
    if DialledBefore(ops) {
      var k :| 0 <= k < |ops| && Dials(ops[k]);
      assert k == |ops| - 1 || Dials(before[k]);
    }
  }

  lemma {:induction false} AttemptsCount(ops: seq<Op>, cfg: Settings)
    ensures RunOps(ops, cfg).attempt > 0 <==> DialledBefore(ops)
  {
    if ops != [] {
      AttemptsCount(ops[..|ops| - 1], cfg);
      DialledInPrefix(ops);
    }
  }

  /**
   A connection asks to resume exactly if replay is enabled, it is not the first, and no earlier
   request to resume was refused; and then from the greatest slot processed so far.
   */
  lemma ReconnectResumes(ops: seq<Op>, cfg: Settings)
    ensures FromSlot(RunOps(ops, cfg)) ==
            if cfg.replay && DialledBefore(ops) && !EverRefused(ops, cfg) then Run(Received(ops), cfg).last else None
  {
    AllowedUnlessRefused(ops, cfg);
    AttemptsCount(ops, cfg);
    SessionReceives(ops, cfg);
  }
}
