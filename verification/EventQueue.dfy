/** The queue itself: a ring of slots, and the promises of the readers that wait. */
module EventQueue {
  import opened Prelude
  import opened QueueSpec

  // A promise made to a reader, and what it resolved to: an item, or the end.
  datatype Settlement<T> = Settlement(promise: nat, item: Option<T>)

  // What the history says about the promises, in the order in which they resolved.
  function Settled<T>(h: seq<Answer>, pushed: seq<T>, promises: seq<nat>): seq<Settlement<T>>
    requires AllKnown(h, |pushed|, |promises|)
  {
    if h == [] then []
    else
      Settled(h[..|h| - 1], pushed, promises) + Resolves(h[|h| - 1], pushed, promises)
  }

  function Resolves<T>(a: Answer, pushed: seq<T>, promises: seq<nat>): seq<Settlement<T>>
    requires Known(a, |pushed|, |promises|)
  {
    match a
    case Item(request, push) =>
      if request.Some? then [Settlement(promises[request.value], Some(pushed[push]))] else []
    case End(reader) => [Settlement(promises[reader], None)]
  }

  predicate Known(a: Answer, pushes: nat, requests: nat) {
    match a
    case Item(request, push) => push < pushes && (request.Some? ==> request.value < requests)
    case End(reader) => reader < requests
  }

  predicate AllKnown(h: seq<Answer>, pushes: nat, requests: nat) {
    forall k :: 0 <= k < |h| ==> Known(h[k], pushes, requests)
  }

  lemma {:induction false} SettledGrows<T>(h: seq<Answer>, pushed: seq<T>, promises: seq<nat>, pushed': seq<T>, promises': seq<nat>)
    requires AllKnown(h, |pushed|, |promises|)
    requires pushed <= pushed' && promises <= promises'
    ensures AllKnown(h, |pushed'|, |promises'|)
    ensures Settled(h, pushed', promises') == Settled(h, pushed, promises)
  {
    if h != [] {
      SettledGrows(h[..|h| - 1], pushed, promises, pushed', promises');
    }
  }

  lemma SettledNext<T>(h: seq<Answer>, a: Answer, pushed: seq<T>, promises: seq<nat>)
    requires AllKnown(h, |pushed|, |promises|)
    requires Known(a, |pushed|, |promises|)
    ensures AllKnown(h + [a], |pushed|, |promises|)
    ensures Settled(h + [a], pushed, promises) == Settled(h, pushed, promises) + Resolves(a, pushed, promises)
  {
    assert (h + [a])[..|h|] == h;
  }

  // The promises that were settled are those of the answers given.
  ghost predicate Told<T(!new)>(settled: seq<Settlement<T>>, h: seq<Answer>, pushed: seq<T>, promises: seq<nat>) {
    AllKnown(h, |pushed|, |promises|) && settled == Settled(h, pushed, promises)
  }

  lemma ToldItem<T(!new)>(settled: seq<Settlement<T>>, h: seq<Answer>, pushed: seq<T>, promises: seq<nat>, request: nat, push: nat)
    requires Told(settled, h, pushed, promises) && request < |promises| && push < |pushed|
    ensures Told(settled + [Settlement(promises[request], Some(pushed[push]))], h + [Item(Some(request), push)], pushed, promises)
  {
    SettledNext(h, Item(Some(request), push), pushed, promises);
  }

  lemma ToldShift<T(!new)>(settled: seq<Settlement<T>>, h: seq<Answer>, pushed: seq<T>, promises: seq<nat>, push: nat)
    requires Told(settled, h, pushed, promises) && push < |pushed|
    ensures Told(settled, h + [Item(None, push)], pushed, promises)
  {
    SettledNext(h, Item(None, push), pushed, promises);
  }

  lemma ToldEnd<T(!new)>(settled: seq<Settlement<T>>, h: seq<Answer>, pushed: seq<T>, promises: seq<nat>, reader: nat)
    requires Told(settled, h, pushed, promises) && reader < |promises|
    ensures Told(settled + [Settlement(promises[reader], None)], h + [End(reader)], pushed, promises)
  {
    SettledNext(h, End(reader), pushed, promises);
  }

  lemma ToldStill<T(!new)>(settled: seq<Settlement<T>>, h: seq<Answer>, pushed: seq<T>, promises: seq<nat>, item: T, promise: nat)
    requires Told(settled, h, pushed, promises)
    ensures Told(settled, h, pushed + [item], promises) && Told(settled, h, pushed, promises + [promise])
  {
    SettledGrows(h, pushed, promises, pushed + [item], promises);
    SettledGrows(h, pushed, promises, pushed, promises + [promise]);
  }

  // The position `k` steps around a ring of `n` slots from `head`.
  function Around(head: nat, k: nat, n: nat): nat
    requires head < n && k <= n
  {
    if head + k < n then head + k else head + k - n
  }

  lemma TwiceOrMore(q: int, n: nat)
    requires q >= 2
    ensures q * n >= 2 * n
  {
    assert (q - 2) * n >= 0;
  }

  lemma NoneOrLess(q: int, n: nat)
    requires q <= 0
    ensures q * n <= 0
  {
  }

  lemma QuotientIsOne(q: int, r: nat, n: nat)
    requires r < n <= q * n + r < 2 * n
    ensures q == 1
  {
    if q >= 2 {
      TwiceOrMore(q, n);
    } else if q <= 0 {
      NoneOrLess(q, n);
    }
  }

  lemma ModuloDrops(a: nat, n: nat)
    requires n <= a < 2 * n
    ensures a % n == a - n
  {
    assert a == (a / n) * n + a % n;
    QuotientIsOne(a / n, a % n, n);
  }

  lemma RingIndex(head: nat, k: nat, n: nat)
    requires head < n && k <= n
    ensures (head + k) % n == Around(head, k, n)
  {
    if head + k >= n {
      ModuloDrops(head + k, n);
    }
  }

  // The slots hold the queued pushes, from `head` around.
  ghost predicate Ring<T(!new)>(slots: seq<Option<T>>, head: nat, queue: seq<nat>, pushed: seq<T>) {
    && head < |slots| && |queue| <= |slots|
    && forall k :: 0 <= k < |queue| ==>
         queue[k] < |pushed| && slots[Around(head, k, |slots|)] == Some(pushed[queue[k]])
  }

  lemma RingGrows<T(!new)>(slots: seq<Option<T>>, head: nat, queue: seq<nat>, pushed: seq<T>, item: T)
    requires Ring(slots, head, queue, pushed)
    ensures Ring(slots, head, queue, pushed + [item])
  {
  }

  lemma RingPut<T(!new)>(slots: seq<Option<T>>, head: nat, queue: seq<nat>, pushed: seq<T>, item: T)
    requires Ring(slots, head, queue, pushed) && |queue| < |slots|
    ensures Ring(slots[Around(head, |queue|, |slots|) := Some(item)], head, queue + [|pushed|], pushed + [item])
  {
  }

  lemma RingTake<T(!new)>(slots: seq<Option<T>>, head: nat, queue: seq<nat>, pushed: seq<T>)
    requires Ring(slots, head, queue, pushed) && queue != []
    ensures Ring(slots[head := None], Around(head, 1, |slots|), queue[1..], pushed)
  {
    var next := Around(head, 1, |slots|);
    forall k | 0 <= k < |queue| - 1
      ensures Around(next, k, |slots|) == Around(head, k + 1, |slots|) != head
    {
    }
  }

  lemma RingReplace<T(!new)>(slots: seq<Option<T>>, head: nat, queue: seq<nat>, pushed: seq<T>, item: T)
    requires Ring(slots, head, queue, pushed) && |queue| == |slots|
    ensures Ring(slots[head := Some(item)], Around(head, 1, |slots|), queue[1..] + [|pushed|], pushed + [item])
  {
    var next := Around(head, 1, |slots|);
    forall k | 0 <= k < |queue| - 1
      ensures Around(next, k, |slots|) == Around(head, k + 1, |slots|) != head
    {
    }
    assert Around(next, |queue| - 1, |slots|) == head;
  }

  lemma EndAllNext(h: seq<Answer>, numbers: seq<nat>, k: nat)
    requires k < |numbers|
    ensures h + EndAll(numbers[..k + 1]) == h + EndAll(numbers[..k]) + [End(numbers[k])]
  {
    assert numbers[..k + 1][..k] == numbers[..k];
  }

  // The promises in `waiters` are those of the requests numbered in `numbers`.
  ghost predicate Promised(waiters: seq<nat>, numbers: seq<nat>, promises: seq<nat>) {
    && |waiters| == |numbers|
    && forall k :: 0 <= k < |waiters| ==> numbers[k] < |promises| && waiters[k] == promises[numbers[k]]
  }

  lemma PromisedTake(waiters: seq<nat>, numbers: seq<nat>, promises: seq<nat>)
    requires Promised(waiters, numbers, promises) && waiters != []
    ensures Promised(waiters[1..], numbers[1..], promises)
    ensures numbers[0] < |promises| && waiters[0] == promises[numbers[0]]
  {
  }

  lemma PromisedMore(waiters: seq<nat>, numbers: seq<nat>, promises: seq<nat>, promise: nat)
    requires Promised(waiters, numbers, promises)
    ensures Promised(waiters, numbers, promises + [promise])
    ensures Promised(waiters + [promise], numbers + [|promises|], promises + [promise])
  {
  }

  class AsyncEventQueue<T(!new)> {
    const maxSize: nat
    const dropOldest: bool

    var items: array<Option<T>>
    var head: nat
    var size: nat
    var waiters: seq<nat>
    var closed: bool
    var droppedCount: nat
    var settled: seq<Settlement<T>>

    ghost var state: State
    ghost var pushed: seq<T>       // what was pushed while the queue was open
    ghost var promises: seq<nat>   // the promise of each request

    ghost predicate RingHolds()
      reads this, items
    {
      && maxSize == items.Length && size == |state.queue| && |pushed| == state.pushes
      && Ring(items[..], head, state.queue, pushed)
    }

    ghost predicate ReadersHold()
      reads this
    {
      && |promises| == state.requests && Promised(waiters, state.waiters, promises)
      && Told(settled, state.history, pushed, promises)
    }

    ghost predicate Valid()
      reads this, items
    {
      && RingHolds() && ReadersHold()
      && closed == state.closed && droppedCount == |state.dropped|
    }

    ghost function Configured(): Settings {
      Settings(maxSize, dropOldest)
    }

    constructor (maxSize: nat, dropOldest: bool)
      requires maxSize > 0
      ensures Valid() && fresh(items) && state == START && Configured() == Settings(maxSize, dropOldest)
    {
      this.maxSize, this.dropOldest := maxSize, dropOldest;
      items := new Option<T>[maxSize](_ => None);
      head, size, waiters, closed, droppedCount, settled := 0, 0, [], false, 0, [];
      state, pushed, promises := START, [], [];
    }

    method Push(item: T) returns (ok: bool)
      requires Valid()
      modifies this, items
      ensures Valid() && items == old(items) && promises == old(promises)
      ensures state == AfterPush(old(state), Configured()) && ok == Accepts(old(state), Configured())
      ensures pushed == if old(closed) then old(pushed) else old(pushed) + [item]
    {
      if closed {
        return false;
      }
      if waiters != [] {
        PushToWaiter(item);
        return true;
      }
      ok := size < maxSize;
      Store(item);
    }

    method PushToWaiter(item: T)
      requires Valid() && !closed && waiters != []
      modifies `waiters, `settled, `state, `pushed
      ensures Valid() && state == AfterPush(old(state), Configured()) && pushed == old(pushed) + [item]
    {
      ghost var n := state.waiters[0];
      PromisedTake(waiters, state.waiters, promises);
      ToldStill(settled, state.history, pushed, promises, item, 0);
      ToldItem(settled, state.history, pushed + [item], promises, n, state.pushes);
      RingGrows(items[..], head, state.queue, pushed, item);
      settled := settled + [Settlement(waiters[0], Some(item))];
      waiters := waiters[1..];
      state, pushed := AfterPush(state, Configured()), pushed + [item];
    }

    method Store(item: T)
      requires Valid() && !closed && waiters == []
      modifies `size, `head, `droppedCount, `state, `pushed, items
      ensures Valid() && state == AfterPush(old(state), Configured()) && pushed == old(pushed) + [item]
    {
      if size < maxSize {
        StoreFitting(item);
      } else {
        StoreOverflow(item);
      }
    }

    method StoreFitting(item: T)
      requires Valid() && !closed && waiters == [] && size < maxSize
      modifies `size, `state, `pushed, items
      ensures Valid() && state == AfterPush(old(state), Configured()) && pushed == old(pushed) + [item]
    {
      ToldStill(settled, state.history, pushed, promises, item, 0);
      Append(item);
      state := state.(pushes := state.pushes + 1, queue := state.queue + [state.pushes]);
      pushed := pushed + [item];
    }

    method StoreOverflow(item: T)
      requires Valid() && !closed && waiters == [] && size == maxSize
      modifies `head, `droppedCount, `state, `pushed, items
      ensures Valid() && state == AfterPush(old(state), Configured()) && pushed == old(pushed) + [item]
    {
      droppedCount := droppedCount + 1;
      ToldStill(settled, state.history, pushed, promises, item, 0);
      if dropOldest {
        ReplaceOldest(item);
        state := Replaced(state);
      } else {
        RingGrows(items[..], head, state.queue, pushed, item);
        state := state.(pushes := state.pushes + 1, dropped := state.dropped + [state.pushes]);
      }
      pushed := pushed + [item];
    }

    method Append(item: T)
      requires RingHolds() && size < maxSize
      modifies `size, items
      ensures Ring(items[..], head, state.queue + [|pushed|], pushed + [item]) && size == old(size) + 1
    {
      ghost var slots := items[..];
      RingPut(slots, head, state.queue, pushed, item);
      RingIndex(head, size, maxSize);
      items[(head + size) % maxSize] := Some(item);
      assert items[..] == slots[Around(head, size, maxSize) := Some(item)];
      size := size + 1;
    }

    method ReplaceOldest(item: T)
      requires RingHolds() && size == maxSize
      modifies `head, items
      ensures Ring(items[..], head, state.queue[1..] + [|pushed|], pushed + [item])
    {
      ghost var slots := items[..];
      RingReplace(slots, head, state.queue, pushed, item);
      RingIndex(head, 1, maxSize);
      items[head] := Some(item);
      assert items[..] == slots[head := Some(item)];
      head := (head + 1) % maxSize;
    }

    // The dequeue that both readers share.
    method Dequeue() returns (item: Option<T>)
      requires RingHolds() && size > 0
      modifies `size, `head, items
      ensures item == Some(pushed[state.queue[0]]) && size == old(size) - 1
      ensures Ring(items[..], head, state.queue[1..], pushed)
    {
      RingTake(items[..], head, state.queue, pushed);
      assert Around(head, 0, maxSize) == head;
      item := items[head];
      RingIndex(head, 1, maxSize);
      items[head] := None;
      head := (head + 1) % maxSize;
      size := size - 1;
    }

    method Shift() returns (item: Option<T>)
      requires Valid()
      modifies this, items
      ensures Valid() && items == old(items) && pushed == old(pushed) && promises == old(promises)
      ensures state == AfterShift(old(state))
      ensures item == if old(state).queue == [] then None else Some(pushed[old(state).queue[0]])
    {
      if size == 0 {
        return None;
      }
      ToldShift(settled, state.history, pushed, promises, state.queue[0]);
      item := Dequeue();
      state := Take(state, None);
    }

    method Clear()
      requires Valid()
      modifies this, items
      ensures Valid() && items == old(items) && pushed == old(pushed) && promises == old(promises)
      ensures state == AfterClear(old(state))
    {
      while size > 0
        invariant Valid() && items == old(items) && pushed == old(pushed) && promises == old(promises)
        invariant AfterClear(state) == AfterClear(old(state))
        decreases size
      {
        Forget();
      }
      assert state.cleared + state.queue == state.cleared;
    }

    method Forget()
      requires Valid() && size > 0
      modifies `size, `head, `state, items
      ensures Valid() && size < old(size) && AfterClear(state) == AfterClear(old(state))
    {
      var _ := Dequeue();
      assert state.cleared + state.queue == state.cleared + [state.queue[0]] + state.queue[1..];
      state := state.(queue := state.queue[1..], cleared := state.cleared + [state.queue[0]]);
    }

    method Close()
      requires Valid()
      modifies this
      ensures Valid() && items == old(items) && pushed == old(pushed) && promises == old(promises)
      ensures state == AfterClose(old(state))
    {
      if closed {
        return;
      }
      closed := true;
      var resolved := waiters;
      waiters := [];
      ResolveEnd(resolved, state.waiters);
      state := AfterClose(state);
    }

    method ResolveEnd(resolved: seq<nat>, ghost numbers: seq<nat>)
      requires Promised(resolved, numbers, promises) && Told(settled, state.history, pushed, promises)
      modifies `settled
      ensures Told(settled, state.history + EndAll(numbers), pushed, promises)
    {
      assert state.history + EndAll(numbers[..0]) == state.history;
      for k := 0 to |resolved|
        modifies `settled
        invariant Told(settled, state.history + EndAll(numbers[..k]), pushed, promises)
      {
        ToldEnd(settled, state.history + EndAll(numbers[..k]), pushed, promises, numbers[k]);
        EndAllNext(state.history, numbers, k);
        settled := settled + [Settlement(resolved[k], None)];
      }
      assert numbers[..|resolved|] == numbers;
    }

    // A reader's request; `promise` is what it holds until it gets its answer.
    method Next(promise: nat)
      requires Valid()
      modifies this, items
      ensures Valid() && items == old(items) && pushed == old(pushed)
      ensures state == AfterNext(old(state)) && promises == old(promises) + [promise]
    {
      if size > 0 {
        Serve(promise);
      } else {
        EndOrWait(promise);
      }
    }

    method Serve(promise: nat)
      requires Valid() && size > 0
      modifies `size, `head, `settled, `state, `promises, items
      ensures Valid() && state == AfterNext(old(state)) && promises == old(promises) + [promise]
    {
      ghost var n, later := state.requests, promises + [promise];
      PromisedMore(waiters, state.waiters, promises, promise);
      ToldStill(settled, state.history, pushed, promises, pushed[state.queue[0]], promise);
      ToldItem(settled, state.history, pushed, later, n, state.queue[0]);
      var item := Dequeue();
      settled := settled + [Settlement(promise, item)];
      state, promises := AfterNext(state), later;
    }

    method EndOrWait(promise: nat)
      requires Valid() && size == 0
      modifies `waiters, `settled, `state, `promises
      ensures Valid() && state == AfterNext(old(state)) && promises == old(promises) + [promise]
    {
      ghost var n, later := state.requests, promises + [promise];
      PromisedMore(waiters, state.waiters, promises, promise);
      SettledGrows(state.history, pushed, promises, pushed, later);
      if closed {
        ToldEnd(settled, state.history, pushed, later, n);
        settled := settled + [Settlement(promise, None)];
      } else {
        waiters := waiters + [promise];
      }
      state, promises := AfterNext(state), later;
    }
  }

  // A queue needs room for one item at least; anything less is refused.
  method Create<T(!new)>(maxSize: int, dropOldest: bool) returns (r: Option<AsyncEventQueue<T>>)
    ensures r.Some? <==> maxSize >= 1
    ensures r.Some? ==>
              && fresh(r.value) && r.value.Valid() && r.value.state == START
              && r.value.Configured() == Settings(maxSize, dropOldest)
  {
    if maxSize < 1 {
      return None;
    }
    var queue := new AsyncEventQueue<T>(maxSize, dropOldest);
    return Some(queue);
  }
}
