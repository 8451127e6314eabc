/** The subscription's own bookkeeping: maps, an order list with a moving head, and its compaction. */
module ReplayWindow {
  import opened Prelude
  import opened Fingerprints
  import opened ReplaySpec

  const COMPACT_AT: nat := 4096

  class Subscription {
    const replayOnReconnect: bool
    const replayDedupeSlots: nat

    var seenUpdates: map<Id, nat>
    var accountFingerprints: map<Id, Fingerprint>
    var seenOrder: seq<Entry>
    var seenHead: nat
    var lastParsedSlot: Option<nat>
    var highestRememberedSlot: nat
    var replayedUpdateCount: nat
    var attempt: nat
    var replayAllowed: bool
    var attemptedReplay: bool

    // Passed entries are fewer than the compaction threshold, or fewer than those still listed.
    ghost predicate Valid()
      reads this
    {
      seenHead <= |seenOrder| && (seenHead < COMPACT_AT || seenHead * 2 < |seenOrder|)
    }

    function Configured(): Settings {
      ReplaySpec.Settings.Settings(replayOnReconnect, replayDedupeSlots)
    }

    // Entries before the head no longer matter.
    ghost function State(): State
      requires seenHead <= |seenOrder|
      reads this
    {
      ReplaySpec.State.State(Memory(seenUpdates, accountFingerprints, seenOrder[seenHead..]),
                             lastParsedSlot, highestRememberedSlot, replayedUpdateCount)
    }

    ghost function Session(): Session
      requires seenHead <= |seenOrder|
      reads this
    {
      ReplaySpec.Session.Session(State(), attempt, replayAllowed, attemptedReplay)
    }

    constructor (cfg: Settings)
      ensures Valid() && Configured() == cfg
      ensures Session() == RunOps([], cfg)
    {
      replayOnReconnect, replayDedupeSlots := cfg.replay, cfg.window;
      seenUpdates, accountFingerprints := map[], map[];
      seenOrder, seenHead := [], 0;
      lastParsedSlot, highestRememberedSlot, replayedUpdateCount := None, 0, 0;
      attempt, replayAllowed, attemptedReplay := 0, cfg.replay, false;
    }

    method RememberParsedUpdate(id: Option<Id>, slot: Option<nat>, fingerprint: Option<Fingerprint>)
      requires Valid()
      modifies this
      ensures Valid()
      ensures Session() == old(Session()).(state := Remember(old(State()), id, slot, fingerprint, replayDedupeSlots))
    {
      if slot.Some? && (lastParsedSlot.None? || slot.value > lastParsedSlot.value) {
        lastParsedSlot := slot;
      }
      if id.None? || slot.None? {
        return;
      }
      NoteUpdate(id.value, slot.value, fingerprint);
      EvictStale();
      Compact();
    }

    method NoteUpdate(id: Id, slot: nat, fingerprint: Option<Fingerprint>)
      requires seenHead <= |seenOrder|
      modifies `accountFingerprints, `seenUpdates, `seenOrder, `highestRememberedSlot
      ensures seenHead <= |seenOrder|
      ensures State() == old(State()).(memory := Note(old(State().memory), id, slot, fingerprint), highest := Max(old(highestRememberedSlot), slot))
    {
      if fingerprint.Some? {
        accountFingerprints := accountFingerprints[id := fingerprint.value];
      }
      seenUpdates := seenUpdates[id := slot];
      OrderGrows(seenOrder, Entry(id, slot), seenHead);
      seenOrder := seenOrder + [Entry(id, slot)];
      if slot > highestRememberedSlot {
        highestRememberedSlot := slot;
      }
    }

    static lemma OrderGrows(order: seq<Entry>, e: Entry, head: nat)
      requires head <= |order|
      ensures (order + [e])[head..] == order[head..] + [e]
    {
    }

    method EvictStale()
      requires seenHead <= |seenOrder|
      modifies `seenHead, `seenUpdates, `accountFingerprints
      ensures seenHead <= |seenOrder|
      ensures State() == old(State()).(memory := Evict(old(State().memory), RetainFrom(highestRememberedSlot, replayDedupeSlots)))
    {
      var retainFrom :=
        if highestRememberedSlot > replayDedupeSlots then highestRememberedSlot - replayDedupeSlots else 0;
      while seenHead < |seenOrder| && seenOrder[seenHead].slot < retainFrom
        invariant seenHead <= |seenOrder|
        invariant Evict(State().memory, retainFrom) == Evict(old(State().memory), retainFrom)
        invariant State() == old(State()).(memory := State().memory)
        decreases |seenOrder| - seenHead
      {
        ghost var before := State().memory;
        var stale := seenOrder[seenHead];
        seenHead := seenHead + 1;
        if stale.id in seenUpdates && seenUpdates[stale.id] == stale.slot {
          seenUpdates := seenUpdates - {stale.id};
          accountFingerprints := accountFingerprints - {stale.id};
        }
        assert before.order[1..] == seenOrder[seenHead..];
        assert State().memory == Forget(before, stale).(order := before.order[1..]);
      }
    }

    // Dropping the passed entries changes nothing that matters.
    method Compact()
      requires seenHead <= |seenOrder|
      modifies `seenOrder, `seenHead
      ensures Valid() && State() == old(State())
    {
      if seenHead >= COMPACT_AT && seenHead * 2 >= |seenOrder| {
        seenOrder := seenOrder[seenHead..];
        seenHead := 0;
      }
    }

    method ProcessUpdate(update: Update, parses: bool) returns (outcome: Outcome)
      requires Valid()
      modifies this
      ensures Valid()
      ensures outcome == OutcomeOf(old(State().memory), Input(update, parses), Configured())
      ensures Session() == Step(old(Session()), Receive(Input(update, parses)), Configured())
    {
      var id, slot, fingerprint := IdOf(update), SlotOf(update), FingerprintOf(update);
      if id.Some? && fingerprint.Some? && id.value in accountFingerprints && accountFingerprints[id.value] != fingerprint.value {
        return Conflict;
      }
      if replayOnReconnect && id.Some? && id.value in seenUpdates {
        replayedUpdateCount := replayedUpdateCount + 1;
        RememberParsedUpdate(None, slot, None);
        return Replayed;
      }
      if !parses {
        return Failed;
      }
      RememberParsedUpdate(id, slot, fingerprint);
      return Parsed;
    }

    method StartAttempt(subscribes: bool) returns (fromSlot: Option<nat>)
      requires Valid()
      modifies this
      ensures Valid()
      ensures fromSlot == if subscribes then FromSlot(old(Session())) else None
      ensures Session() == Step(old(Session()), if subscribes then Connect else ConnectFails, Configured())
    {
      attemptedReplay := false;
      fromSlot := None;
      attempt := attempt + 1;
      if subscribes && attempt > 1 && replayAllowed && lastParsedSlot.Some? {
        fromSlot := lastParsedSlot;
        attemptedReplay := true;
      }
    }

    method StreamFails(receivedData: bool, unsupported: bool)
      requires Valid()
      modifies this
      ensures Valid()
      ensures Session() == Step(old(Session()), Fail(receivedData, unsupported), Configured())
    {
      if attemptedReplay && !receivedData && unsupported {
        replayAllowed := false;
      }
    }
  }
}
