/** Where the last pass leaves every event: a current swap takes the place of the old swap of its number. */
module PreferPlaces {
  import opened Prelude
  import opened EventPairing
  import opened CreateReorder
  import opened ReorderPlaces

  // How many swaps of its key and kind come before place `i`.
  function NumberOf(evs: seq<Event>, i: nat): nat
    requires i < |evs|
  {
    CountDbc(evs[..i], evs[i].identity, IsCurrent(evs[i]))
  }

  lemma {:induction false} KthIs(evs: seq<Event>, key: seq<nat>, current: bool, k: nat)
    requires k < CountDbc(evs, key, current)
    ensures CountDbc(evs[..KthDbc(evs, key, current, k)], key, current) == k
  {
    var n := |evs| - 1;
    if !(IsDbc(evs[n], key, current) && CountDbc(evs[..n], key, current) == k) {
      KthIs(evs[..n], key, current, k);
      assert evs[..n][..KthDbc(evs[..n], key, current, k)] == evs[..KthDbc(evs[..n], key, current, k)];
    }
  }

  lemma {:induction false} KthOf(evs: seq<Event>, key: seq<nat>, current: bool, i: nat)
    requires i < |evs| && IsDbc(evs[i], key, current)
    ensures CountDbc(evs[..i], key, current) < CountDbc(evs, key, current)
    ensures KthDbc(evs, key, current, CountDbc(evs[..i], key, current)) == i
  {
    var n := |evs| - 1;
    CountDbcPrefix(evs, i, key, current);
    if i < n {
      KthOf(evs[..n], key, current, i);
      CountDbcPrefix(evs[..n], i, key, current);
      assert evs[..n][..i] == evs[..i];
    }
  }

  /** Where an event ends up: at its own place, or at that of the old swap it replaces; an old swap nowhere. */
  function PlaceOf(evs: seq<Event>, i: nat): Option<nat>
    requires i < |evs|
  {
    if !Matched(evs, evs[i]) then Some(i)
    else if IsCurrent(evs[i]) then
      CountDbcPrefix(evs, i, evs[i].identity, true);
      Some(KthDbc(evs, evs[i].identity, false, NumberOf(evs, i)))
    else None
  }

  // The events that end up before place `n`, each once, in the order of their places.
  ghost predicate IsSettled(evs: seq<Event>, order: seq<nat>, n: nat) {
    && (forall k :: 0 <= k < |order| ==> SettlesBefore(evs, order[k], n))
    && (forall i: nat :: i < |evs| && SettlesBefore(evs, i, n) ==> i in order)
    && (forall j, k :: 0 <= j < k < |order| ==> SettlesEarlier(evs, order[j], order[k]))
  }

  predicate SettlesBefore(evs: seq<Event>, i: nat, n: nat) {
    i < |evs| && PlaceOf(evs, i).Some? && PlaceOf(evs, i).value < n
  }

  predicate SettlesEarlier(evs: seq<Event>, i: nat, j: nat) {
    i < |evs| && j < |evs| && PlaceOf(evs, i).Some? && PlaceOf(evs, j).Some? && PlaceOf(evs, i).value < PlaceOf(evs, j).value
  }

  // The event that ends up at place `n`, if any does.
  function Settler(evs: seq<Event>, n: nat): (r: Option<nat>)
    requires n < |evs|
    ensures r.Some? ==> r.value < |evs|
  {
    if !Matched(evs, evs[n]) then Some(n)
    else if IsCurrent(evs[n]) then None
    else
      CountDbcPrefix(evs, n, evs[n].identity, false);
      Some(KthDbc(evs, evs[n].identity, true, NumberOf(evs, n)))
  }

  lemma SettlerIs(evs: seq<Event>, n: nat, i: nat)
    requires n < |evs| && i < |evs|
    ensures PlaceOf(evs, i) == Some(n) <==> Settler(evs, n) == Some(i)
  {
    if Matched(evs, evs[i]) && IsCurrent(evs[i]) {
      CountDbcPrefix(evs, i, evs[i].identity, true);
      KthIs(evs, evs[i].identity, false, NumberOf(evs, i));
      KthOf(evs, evs[i].identity, true, i);
    }
    if Matched(evs, evs[n]) && IsOld(evs[n]) {
      CountDbcPrefix(evs, n, evs[n].identity, false);
      KthIs(evs, evs[n].identity, true, NumberOf(evs, n));
      KthOf(evs, evs[n].identity, false, n);
    }
  }

  lemma BecomesSettler(evs: seq<Event>, n: nat)
    requires n < |evs|
    ensures Becomes(evs, n) == match Settler(evs, n) case None => [] case Some(i) => [evs[i]]
  {
  }

  // The order with what ends up at place `n`.
  function Extended(evs: seq<Event>, order: seq<nat>, n: nat): seq<nat>
    requires n < |evs|
  {
    if Settler(evs, n).Some? then order + [Settler(evs, n).value] else order
  }

  lemma SettlesNow(evs: seq<Event>, n: nat, i: nat)
    requires n < |evs| && i < |evs|
    ensures SettlesBefore(evs, i, n + 1) <==> SettlesBefore(evs, i, n) || Settler(evs, n) == Some(i)
  {
    SettlerIs(evs, n, i);
  }

  lemma SettledSame(evs: seq<Event>, order: seq<nat>, n: nat)
    requires n < |evs| && IsSettled(evs, order, n) && Settler(evs, n).None?
    ensures IsSettled(evs, order, n + 1)
  {
    forall i: nat | i < |evs|
      ensures SettlesBefore(evs, i, n + 1) <==> SettlesBefore(evs, i, n)
    {
      SettlesNow(evs, n, i);
    }
  }

  lemma SettledNext(evs: seq<Event>, order: seq<nat>, n: nat)
    requires n < |evs| && IsSettled(evs, order, n)
    ensures IsSettled(evs, Extended(evs, order, n), n + 1)
  {
    if Settler(evs, n).None? {
      SettledSame(evs, order, n);
    } else {
      var x := Settler(evs, n).value;
      forall i: nat | i < |evs|
        ensures SettlesBefore(evs, i, n + 1) <==> SettlesBefore(evs, i, n) || x == i
      {
        SettlesNow(evs, n, i);
      }
      SettlerIs(evs, n, x);
      SettledMore(evs, order, n, x);
    }
  }

  lemma SettledMore(evs: seq<Event>, order: seq<nat>, n: nat, x: nat)
    requires n < |evs| && x < |evs| && IsSettled(evs, order, n) && PlaceOf(evs, x) == Some(n)
    requires forall i: nat :: i < |evs| ==> (SettlesBefore(evs, i, n + 1) <==> SettlesBefore(evs, i, n) || x == i)
    ensures IsSettled(evs, order + [x], n + 1)
  {
    var longer := order + [x];
    forall i: nat | i < |evs| && SettlesBefore(evs, i, n + 1)
      ensures i in longer
    {
      assert longer[|order|] == x;
    }
    forall j, k | 0 <= j < k < |longer|
      ensures SettlesEarlier(evs, longer[j], longer[k])
    {
      assert SettlesBefore(evs, order[j], n);
      assert k < |order| ==> SettlesEarlier(evs, order[j], order[k]);
    }
  }

  lemma PickMore(evs: seq<Event>, order: seq<nat>, x: nat)
    requires x < |evs| && forall k :: 0 <= k < |order| ==> order[k] < |evs|
    ensures Pick(evs, order + [x]) == Pick(evs, order) + [evs[x]]
  {
  }

  lemma PreferNext(evs: seq<Event>, order: seq<nat>, n: nat)
    requires n < |evs| && (forall k :: 0 <= k < |order| ==> order[k] < |evs|) && PreferTo(evs, n) == Pick(evs, order)
    ensures PreferTo(evs, n + 1) == Pick(evs, Extended(evs, order, n))
  {
    BecomesSettler(evs, n);
    if Settler(evs, n).None? {
      assert PreferTo(evs, n) + [] == PreferTo(evs, n);
    } else {
      PickMore(evs, order, Settler(evs, n).value);
    }
  }

  lemma SettledInside(evs: seq<Event>, order: seq<nat>, n: nat)
    requires IsSettled(evs, order, n)
    ensures forall k :: 0 <= k < |order| ==> order[k] < |evs|
  {
    forall k | 0 <= k < |order|
      ensures order[k] < |evs|
    {
      assert SettlesBefore(evs, order[k], n);
    }
  }

  lemma {:induction false} PreferToSettles(evs: seq<Event>, n: nat) returns (order: seq<nat>)
    requires n <= |evs|
    ensures IsSettled(evs, order, n) && (forall k :: 0 <= k < |order| ==> order[k] < |evs|) && PreferTo(evs, n) == Pick(evs, order)
  {
    if n == 0 {
      order := [];
    } else {
      var before := PreferToSettles(evs, n - 1);
      SettledNext(evs, before, n - 1);
      PreferNext(evs, before, n - 1);
      order := Extended(evs, before, n - 1);
      SettledInside(evs, order, n);
    }
  }

  /** The output is what ends up somewhere, in the order of the places. */
  ghost predicate Settles(evs: seq<Event>, order: seq<nat>, out: seq<Event>) {
    IsSettled(evs, order, |evs|) && (forall k :: 0 <= k < |order| ==> order[k] < |evs|) && out == Pick(evs, order)
  }

  lemma PreferredSettles(evs: seq<Event>) returns (order: seq<nat>)
    ensures Settles(evs, order, Preferred(evs))
  {
    order := PreferToSettles(evs, |evs|);
  }
}
