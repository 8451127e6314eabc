/** Bringing a saved account up to date with the snapshots that a stream delivers in any order. */
module Snapshots {
  import opened Prelude

  type Key = nat

  datatype Error = IdentityMismatch | InexactSlot | ConflictingVersion

  datatype Account = Account(pubkey: Key, owner: Key, data: Bytes, slot: nat, writeVersion: nat)

  // A slot that is no exact 64-bit number is refused.
  datatype Snapshot = Snapshot(pubkey: Key, owner: Key, data: Bytes, lamports: nat, slot: Option<nat>, writeVersion: nat)

  predicate Older(slot: nat, version: nat, slot': nat, version': nat) {
    slot < slot' || (slot == slot' && version < version')
  }

  predicate Before(a: Account, b: Account) {
    Older(a.slot, a.writeVersion, b.slot, b.writeVersion)
  }

  // An account without lamports has been closed: its data count for nothing.
  function Saved(s: Snapshot): Account {
    Account(s.pubkey, s.owner, if s.lamports == 0 then [] else s.data, if s.slot.Some? then s.slot.value else 0, s.writeVersion)
  }

  function Apply(current: Account, s: Snapshot): Result<Account, Error> {
    if current.pubkey != s.pubkey then Err(IdentityMismatch)
    else if s.slot.None? then Err(InexactSlot)
    else if Before(Saved(s), current) then Ok(current)
    else if !Before(current, Saved(s)) then
      if current.owner != s.owner || current.data != Saved(s).data then Err(ConflictingVersion) else Ok(current)
    else Ok(Saved(s))
  }

  // Snapshots one after the other; the first error ends it.
  function ApplyAll(current: Account, ss: seq<Snapshot>): Result<Account, Error>
    decreases |ss|
  {
    if ss == [] then Ok(current)
    else
      match Apply(current, ss[0])
      case Ok(next) => ApplyAll(next, ss[1..])
      case Err(e) => Err(e)
  }

  predicate Belongs(start: Account, s: Snapshot) {
    s.pubkey == start.pubkey && s.slot.Some?
  }

  ghost predicate AllBelong(start: Account, ss: seq<Snapshot>) {
    forall s :: s in ss ==> Belongs(start, s)
  }

  // The same version has the same owner and data.
  predicate Agree(a: Account, b: Account) {
    a.slot == b.slot && a.writeVersion == b.writeVersion ==> a == b
  }

  /** Versions older than the saved one do not matter; all others agree with it and with each other. */
  ghost predicate Consistent(start: Account, ss: seq<Snapshot>) {
    && (forall s :: s in ss ==> Agree(start, Saved(s)))
    && (forall s, t :: s in ss && t in ss && !Before(Saved(s), start) ==> Agree(Saved(s), Saved(t)))
  }

  ghost predicate IsGreatest(r: Account, start: Account, ss: seq<Snapshot>) {
    && (r == start || exists s :: s in ss && r == Saved(s))
    && !Before(r, start)
    && (forall s :: s in ss ==> !Before(r, Saved(s)))
  }

  lemma ApplyTakesGreater(current: Account, s: Snapshot)
    requires Belongs(current, s) && Agree(current, Saved(s))
    ensures Apply(current, s) == Ok(if Before(current, Saved(s)) then Saved(s) else current)
  {
  }

  lemma ConsistentNext(start: Account, ss: seq<Snapshot>)
    requires ss != [] && AllBelong(start, ss) && Consistent(start, ss)
    ensures var next := if Before(start, Saved(ss[0])) then Saved(ss[0]) else start;
            AllBelong(next, ss[1..]) && Consistent(next, ss[1..])
  {
    assert forall s :: s in ss[1..] ==> s in ss;
  }

  lemma GreatestNext(r: Account, start: Account, ss: seq<Snapshot>)
    requires ss != [] && AllBelong(start, ss)
    requires var next := if Before(start, Saved(ss[0])) then Saved(ss[0]) else start;
             AllBelong(next, ss[1..]) && IsGreatest(r, next, ss[1..])
    ensures IsGreatest(r, start, ss)
  {
    assert forall s :: s in ss <==> s == ss[0] || s in ss[1..];
    assert ss[0] in ss;
  }

  /** Consistent snapshots are applied without an error and leave the greatest version. */
  lemma {:induction false} ConsistentApplies(start: Account, ss: seq<Snapshot>)
    requires AllBelong(start, ss) && Consistent(start, ss)
    ensures ApplyAll(start, ss).Ok? && IsGreatest(ApplyAll(start, ss).value, start, ss)
    decreases |ss|
  {
    if ss != [] {
      assert ss[0] in ss;
      ApplyTakesGreater(start, ss[0]);
      ConsistentNext(start, ss);
      var next := if Before(start, Saved(ss[0])) then Saved(ss[0]) else start;
      ConsistentApplies(next, ss[1..]);
      GreatestNext(ApplyAll(start, ss).value, start, ss);
    }
  }

  lemma GreatestIsUnique(a: Account, b: Account, start: Account, ss: seq<Snapshot>)
    requires AllBelong(start, ss) && Consistent(start, ss) && IsGreatest(a, start, ss) && IsGreatest(b, start, ss)
    ensures a == b
  {
  }

  lemma PermutedMembers(ss: seq<Snapshot>, ts: seq<Snapshot>)
    requires multiset(ss) == multiset(ts)
    ensures forall s :: s in ss <==> s in ts
  {
    forall s: Snapshot
      ensures s in ss <==> s in ts
    {
      assert s in ss <==> s in multiset(ss);
      assert s in ts <==> s in multiset(ts);
    }
  }

  /** The order of consistent snapshots does not matter. */
  lemma OrderDoesNotMatter(start: Account, ss: seq<Snapshot>, ts: seq<Snapshot>)
    requires AllBelong(start, ss) && Consistent(start, ss) && multiset(ss) == multiset(ts)
    ensures ApplyAll(start, ts) == ApplyAll(start, ss)
  {
    PermutedMembers(ss, ts);
    ConsistentApplies(start, ss);
    ConsistentApplies(start, ts);
    GreatestIsUnique(ApplyAll(start, ss).value, ApplyAll(start, ts).value, start, ss);
  }

  // The account as the snapshot tells it; nothing is left of a closed one.
  predicate Tells(s: Snapshot, r: Account) {
    && r.pubkey == s.pubkey && r.owner == s.owner && s.slot == Some(r.slot) && r.writeVersion == s.writeVersion
    && (s.lamports == 0 ==> r.data == []) && (s.lamports > 0 ==> r.data == s.data)
  }

  // Not of a later slot than `r`, nor of a later version in its slot.
  predicate NotAfter(slot: nat, writeVersion: nat, r: Account) {
    slot <= r.slot && (slot == r.slot ==> writeVersion <= r.writeVersion)
  }

  /** Whatever the order, if it succeeds: the result is the saved account or one that a snapshot tells, and none is later. */
  lemma {:induction false} LeavesTheLatest(start: Account, ss: seq<Snapshot>)
    requires ApplyAll(start, ss).Ok?
    ensures var r := ApplyAll(start, ss).value;
            && (r == start || exists s :: s in ss && Tells(s, r))
            && NotAfter(start.slot, start.writeVersion, r)
            && forall s :: s in ss ==> s.pubkey == r.pubkey && s.slot.Some? && NotAfter(s.slot.value, s.writeVersion, r)
    decreases |ss|
  {
    if ss != [] {
      var next := Apply(start, ss[0]).value;
      LeavesTheLatest(next, ss[1..]);
      var r := ApplyAll(start, ss).value;
      assert next == start || Tells(ss[0], next);
      assert ss[0] in ss && forall s :: s in ss <==> s == ss[0] || s in ss[1..];
    }
  }

  // ----- When it does throw -----

  lemma {:induction false} StrangerFails(start: Account, ss: seq<Snapshot>)
    requires !AllBelong(start, ss)
    ensures ApplyAll(start, ss).Err?
    decreases |ss|
  {
    if Belongs(start, ss[0]) && Apply(start, ss[0]).Ok? {
      var s :| s in ss && !Belongs(start, s);
      assert s in ss[1..];
      StrangerFails(Apply(start, ss[0]).value, ss[1..]);
    }
  }

  lemma RemoveOne(ss: seq<Snapshot>, s: Snapshot) returns (rest: seq<Snapshot>)
    requires s in ss
    ensures multiset([s] + rest) == multiset(ss)
  {
    var k :| 0 <= k < |ss| && ss[k] == s;
    rest := ss[..k] + ss[k + 1..];
    assert ss == ss[..k] + [s] + ss[k + 1..];
  }

  lemma RemoveTwo(ss: seq<Snapshot>, s: Snapshot, t: Snapshot) returns (rest: seq<Snapshot>)
    requires s in ss && t in ss && s != t
    ensures multiset([s, t] + rest) == multiset(ss)
  {
    var one := RemoveOne(ss, s);
    assert multiset([s] + one) == multiset{s} + multiset(one);
    assert t in multiset(ss) && t in multiset(one);
    rest := RemoveOne(one, t);
    assert [s, t] + rest == [s] + ([t] + rest);
  }

  lemma DisagreeingFails(start: Account, s: Snapshot, rest: seq<Snapshot>)
    requires Belongs(start, s) && !Agree(start, Saved(s))
    ensures ApplyAll(start, [s] + rest).Err?
  {
    assert Apply(start, s).Err?;
  }

  lemma DisagreeingPairFails(start: Account, s: Snapshot, t: Snapshot, rest: seq<Snapshot>)
    requires Belongs(start, s) && Belongs(start, t)
    requires !Before(Saved(s), start) && !Agree(Saved(s), Saved(t))
    ensures ApplyAll(start, [s, t] + rest).Err?
  {
    assert ([s, t] + rest)[1..] == [t] + rest;
    if Apply(start, s).Ok? {
      DisagreeingFails(Apply(start, s).value, t, rest);
    }
  }

  ghost predicate AlwaysApplies(start: Account, ss: seq<Snapshot>) {
    forall ts :: multiset(ts) == multiset(ss) ==> ApplyAll(start, ts).Ok?
  }

  /**
   Snapshots never fail, whatever their order, if and only if they all belong to the account with an
   exact slot and are consistent from the saved version on.
   */
  lemma NeverFailsExactly(start: Account, ss: seq<Snapshot>)
    ensures AlwaysApplies(start, ss) <==> AllBelong(start, ss) && Consistent(start, ss)
  {
    if AllBelong(start, ss) && Consistent(start, ss) {
      forall ts | multiset(ts) == multiset(ss)
        ensures ApplyAll(start, ts).Ok?
      {
        OrderDoesNotMatter(start, ss, ts);
        ConsistentApplies(start, ss);
      }
    } else if !AllBelong(start, ss) {
      StrangerFails(start, ss);
      assert !AlwaysApplies(start, ss);
    } else if s :| s in ss && !Agree(start, Saved(s)) {
      var rest := RemoveOne(ss, s);
      DisagreeingFails(start, s, rest);
      assert !AlwaysApplies(start, ss);
    } else {
      var s, t :| s in ss && t in ss && !Before(Saved(s), start) && !Agree(Saved(s), Saved(t));
      var rest := RemoveTwo(ss, s, t);
      DisagreeingPairFails(start, s, t, rest);
      assert !AlwaysApplies(start, ss);
    }
  }

  // ----- One given order -----

  // The newest version among the saved one and the snapshots that have arrived.
  function Newest(start: Account, ss: seq<Snapshot>): Account {
    if ss == [] then start
    else
      var before, s := Newest(start, ss[..|ss| - 1]), Saved(ss[|ss| - 1]);
      if Before(before, s) then s else before
  }

  // Snapshot `k` does not belong, or has the version of the newest so far and differs from it.
  predicate Clashes(start: Account, ss: seq<Snapshot>, k: nat)
    requires k < |ss|
  {
    !Belongs(start, ss[k]) || !Agree(Newest(start, ss[..k]), Saved(ss[k]))
  }

  ghost predicate NoneClashes(start: Account, ss: seq<Snapshot>) {
    forall k :: 0 <= k < |ss| ==> !Clashes(start, ss, k)
  }

  lemma {:induction false} ApplyAllLast(start: Account, ss: seq<Snapshot>, s: Snapshot)
    ensures ApplyAll(start, ss + [s]) == match ApplyAll(start, ss) { case Ok(current) => Apply(current, s) case Err(e) => Err(e) }
    decreases |ss|
  {
    if ss == [] {
      assert [] + [s] == [s] && [s][1..] == [];
    } else {
      assert (ss + [s])[1..] == ss[1..] + [s];
      if Apply(start, ss[0]).Ok? {
        ApplyAllLast(Apply(start, ss[0]).value, ss[1..], s);
      }
    }
  }

  lemma NoneClashesLast(start: Account, ss: seq<Snapshot>)
    requires ss != []
    ensures NoneClashes(start, ss) <==> NoneClashes(start, ss[..|ss| - 1]) && !Clashes(start, ss, |ss| - 1)
  {
    var before := ss[..|ss| - 1];
    forall k | 0 <= k < |before|
      ensures Clashes(start, ss, k) <==> Clashes(start, before, k)
    {
      assert before[..k] == ss[..k];
    }
  }

  lemma {:induction false} NewestBelongs(start: Account, ss: seq<Snapshot>)
    requires NoneClashes(start, ss)
    ensures Newest(start, ss).pubkey == start.pubkey
  {
    if ss != [] {
      NoneClashesLast(start, ss);
      NewestBelongs(start, ss[..|ss| - 1]);
      assert !Clashes(start, ss, |ss| - 1);
    }
  }

  /**
   For every order by itself: applying succeeds if and only if every snapshot belongs and none has
   the version of the newest so far and differs from it; and then the newest is the result.
   */
  lemma {:induction false} AppliesExactly(start: Account, ss: seq<Snapshot>)
    ensures ApplyAll(start, ss).Ok? <==> NoneClashes(start, ss)
    ensures ApplyAll(start, ss).Ok? ==> ApplyAll(start, ss).value == Newest(start, ss)
  {
    if ss != [] {
      var n := |ss| - 1;
      AppliesExactly(start, ss[..n]);
      assert ss == ss[..n] + [ss[n]];
      ApplyAllLast(start, ss[..n], ss[n]);
      NoneClashesLast(start, ss);
      if NoneClashes(start, ss[..n]) {
        NewestBelongs(start, ss[..n]);
        AppliesToNewest(Newest(start, ss[..n]), ss[n]);
      }
    }
  }

  lemma AppliesToNewest(newest: Account, s: Snapshot)
    ensures Apply(newest, s).Ok? <==> Belongs(newest, s) && Agree(newest, Saved(s))
    ensures Apply(newest, s).Ok? ==> Apply(newest, s).value == if Before(newest, Saved(s)) then Saved(s) else newest
  {
  }

  /** Two contents of one version and a later version: applied in one order, refused in another. */
  lemma OrderDecides(start: Account)
    requires start.slot == 0 && start.writeVersion == 0
    ensures var s := Snapshot(start.pubkey, start.owner, [1], 1, Some(1), 0);
            var t := Snapshot(start.pubkey, start.owner, [2], 1, Some(1), 0);
            var u := Snapshot(start.pubkey, start.owner, [3], 1, Some(2), 0);
            ApplyAll(start, [s, t, u]) == Err(ConflictingVersion) && ApplyAll(start, [s, u, t]) == Ok(Saved(u))
  {
    var s := Snapshot(start.pubkey, start.owner, [1], 1, Some(1), 0);
    var t := Snapshot(start.pubkey, start.owner, [2], 1, Some(1), 0);
    var u := Snapshot(start.pubkey, start.owner, [3], 1, Some(2), 0);
    assert [s, t, u][1..] == [t, u] && [s, u, t][1..] == [u, t] && [u, t][1..] == [t] && [t][1..] == [];
    assert Saved(s).data[0] != Saved(t).data[0];
    assert Apply(start, s) == Ok(Saved(s)) && Apply(Saved(s), t) == Err(ConflictingVersion);
    assert ApplyAll(Saved(s), [t, u]) == Err(ConflictingVersion);
    assert Apply(Saved(s), u) == Ok(Saved(u)) && Apply(Saved(u), t) == Ok(Saved(u));
    assert ApplyAll(Saved(u), [t]) == ApplyAll(Saved(u), []) == Ok(Saved(u));
    assert ApplyAll(Saved(s), [u, t]) == ApplyAll(Saved(u), [t]);
  }
}
