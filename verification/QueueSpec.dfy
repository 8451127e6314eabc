/**
 A bounded queue with waiting readers, told in numbers: pushes made while the queue was open and
 requests for an item are numbered as they come, so the history says which push answered which
 request.
 */
module QueueSpec {
  import opened Prelude

  datatype Answer =
    | Item(request: Option<nat>, push: nat) // taken by a request, or by a plain shift
    | End(reader: nat)                      // the request was told that nothing more comes

  datatype Settings = Settings(maxSize: nat, dropOldest: bool)

  datatype State = State(
    queue: seq<nat>,     // numbers of the pushes that are queued
    waiters: seq<nat>,   // numbers of the requests that wait
    closed: bool,
    pushes: nat,
    requests: nat,
    history: seq<Answer>,
    delivered: seq<nat>, // pushes, in order of delivery
    served: seq<nat>,    // requests that got an item, in order of delivery
    ended: seq<nat>,     // requests that were told of the end
    dropped: seq<nat>,
    cleared: seq<nat>)

  const START: State := State([], [], false, 0, 0, [], [], [], [], [], [])

  datatype Op = Push | Shift | Clear | Close | Next

  // A push onto a full queue, the oldest item making room.
  function Replaced(s: State): State
    requires s.queue != []
  {
    s.(pushes := s.pushes + 1, queue := s.queue[1..] + [s.pushes], dropped := s.dropped + [s.queue[0]])
  }

  function AfterPush(s: State, cfg: Settings): State {
    if s.closed then s
    else if s.waiters != [] then
      s.(pushes := s.pushes + 1, waiters := s.waiters[1..],
         history := s.history + [Item(Some(s.waiters[0]), s.pushes)],
         delivered := s.delivered + [s.pushes], served := s.served + [s.waiters[0]])
    else if |s.queue| < cfg.maxSize then
      s.(pushes := s.pushes + 1, queue := s.queue + [s.pushes])
    else if cfg.dropOldest && s.queue != [] then Replaced(s)
    else
      s.(pushes := s.pushes + 1, dropped := s.dropped + [s.pushes])
  }

  // Whether the producer is told that nothing was lost.
  predicate Accepts(s: State, cfg: Settings) {
    !s.closed && (s.waiters != [] || |s.queue| < cfg.maxSize)
  }

  function Take(s: State, request: Option<nat>): State
    requires s.queue != []
  {
    s.(queue := s.queue[1..], history := s.history + [Item(request, s.queue[0])], delivered := s.delivered + [s.queue[0]])
  }

  function AfterShift(s: State): State {
    if s.queue == [] then s else Take(s, None)
  }

  function AfterClear(s: State): State {
    s.(queue := [], cleared := s.cleared + s.queue)
  }

  function EndAll(waiters: seq<nat>): seq<Answer> {
    if waiters == [] then [] else EndAll(waiters[..|waiters| - 1]) + [End(waiters[|waiters| - 1])]
  }

  function AfterClose(s: State): State {
    if s.closed then s
    else
      s.(closed := true, waiters := [], history := s.history + EndAll(s.waiters), ended := s.ended + s.waiters)
  }

  function AfterNext(s: State): State {
    if s.queue != [] then
      Take(s, Some(s.requests)).(requests := s.requests + 1, served := s.served + [s.requests])
    else if s.closed then
      s.(requests := s.requests + 1, history := s.history + [End(s.requests)], ended := s.ended + [s.requests])
    else s.(requests := s.requests + 1, waiters := s.waiters + [s.requests])
  }

  function Step(s: State, op: Op, cfg: Settings): State {
    match op
    case Push => AfterPush(s, cfg)
    case Shift => AfterShift(s)
    case Clear => AfterClear(s)
    case Close => AfterClose(s)
    case Next => AfterNext(s)
  }

  function Run(ops: seq<Op>, cfg: Settings): State {
    if ops == [] then START else Step(Run(ops[..|ops| - 1], cfg), ops[|ops| - 1], cfg)
  }

  // ----- What the history says -----

  // The pushes that were delivered, in order of delivery.
  function Delivered(h: seq<Answer>): seq<nat> {
    if h == [] then []
    else Delivered(h[..|h| - 1]) + if h[|h| - 1].Item? then [h[|h| - 1].push] else []
  }

  // The requests that got an item, in order of delivery.
  function Served(h: seq<Answer>): seq<nat> {
    if h == [] then []
    else
      Served(h[..|h| - 1])
      + if h[|h| - 1].Item? && h[|h| - 1].request.Some? then [h[|h| - 1].request.value] else []
  }

  // The requests that were told of the end.
  function Ended(h: seq<Answer>): seq<nat> {
    if h == [] then []
    else Ended(h[..|h| - 1]) + if h[|h| - 1].End? then [h[|h| - 1].reader] else []
  }

  function Range(n: nat): seq<nat> {
    if n == 0 then [] else Range(n - 1) + [n - 1]
  }

  ghost predicate Increasing(s: seq<nat>) {
    forall i, j :: 0 <= i < j < |s| ==> s[i] < s[j]
  }

  ghost predicate Below(s: seq<nat>, n: nat) {
    forall i :: 0 <= i < |s| ==> s[i] < n
  }
}
