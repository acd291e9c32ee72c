/** The in-memory task queue (backend/internal/queue/queue.go): a buffered channel and a closed flag. */
module Queues {

  type Id = nat

  const CAPACITY := 8192

  datatype PushResult = Pushed | ErrClosed | ErrFull
  // Blocked: neither branch of the select is ready, so the call is still waiting.
  datatype PopResult = Item(id: Id) | Drained | Cancelled | Blocked

  datatype Channel = Channel(items: seq<Id>, closed: bool)

  const EMPTY := Channel([], false)

  function PushStep(q: Channel, id: Id): (Channel, PushResult) {
    if q.closed then (q, ErrClosed)
    else if |q.items| < CAPACITY then (q.(items := q.items + [id]), Pushed)
    else (q, ErrFull)
  }

  // When both branches of the select are ready the runtime picks one: preferCtx.
  function PopStep(q: Channel, ctxDone: bool, preferCtx: bool): (Channel, PopResult) {
    var ready := q.items != [] || q.closed;
    if ctxDone && (!ready || preferCtx) then (q, Cancelled)
    else if !ready then (q, Blocked)
    else if q.items == [] then (q, Drained)
    else (q.(items := q.items[1..]), Item(q.items[0]))
  }

  class MemoryQueue {
    var ch: seq<Id>
    var closed: bool

    ghost function View(): Channel
      reads this
    {
      Channel(ch, closed)
    }

    constructor ()
      ensures View() == EMPTY
    {
      ch, closed := [], false;
    }

    method Push(id: Id) returns (result: PushResult)
      modifies this`ch
      ensures (View(), result) == PushStep(old(View()), id)
    {
      if closed {
        return ErrClosed;
      }
      if |ch| < CAPACITY {
        ch := ch + [id];
        return Pushed;
      }
      return ErrFull;
    }

    method Pop(ctxDone: bool, preferCtx: bool) returns (result: PopResult)
      modifies this`ch
      ensures (View(), result) == PopStep(old(View()), ctxDone, preferCtx)
    {
      if ctxDone && (preferCtx || (ch == [] && !closed)) {
        return Cancelled;
      }
      if ch != [] {
        result := Item(ch[0]);
        ch := ch[1..];
        return;
      }
      return if closed then Drained else Blocked;
    }

    method Close()
      modifies this`closed
      ensures View() == old(View()).(closed := true)
    {
      if !closed {
        closed := true;
      }
    }
  }

  // ---------------------------------------------------------------- runs

  datatype Op = Push(id: Id) | Pop(ctxDone: bool, preferCtx: bool) | Close

  // What a run of calls leaves, which pushes it accepted and what its pops returned, in order.
  datatype Outcome = Outcome(queue: Channel, accepted: seq<Id>, popped: seq<Id>)

  function Apply(r: Outcome, op: Op): Outcome {
    match op
    case Push(id) =>
      var (q, result) := PushStep(r.queue, id);
      Outcome(q, if result == Pushed then r.accepted + [id] else r.accepted, r.popped)
    case Pop(ctxDone, preferCtx) =>
      var (q, result) := PopStep(r.queue, ctxDone, preferCtx);
      Outcome(q, r.accepted, if result.Item? then r.popped + [result.id] else r.popped)
    case Close => r.(queue := r.queue.(closed := true))
  }

  function Run(r: Outcome, ops: seq<Op>): Outcome
    decreases |ops|
  {
    if ops == [] then r else Run(Apply(r, ops[0]), ops[1..])
  }

  const START := Outcome(EMPTY, [], [])

  predicate Conserved(r: Outcome) { r.accepted == r.popped + r.queue.items && |r.queue.items| <= CAPACITY }

  /** First in, first out, nothing lost and nothing twice: at any point the accepted pushes are the
      popped ids followed by what is still queued, and never more than the capacity is queued. */
  lemma {:induction false} Fifo(r: Outcome, ops: seq<Op>)
    requires Conserved(r)
    ensures Conserved(Run(r, ops))
    decreases |ops|
  {
    if ops != [] {
      Fifo(Apply(r, ops[0]), ops[1..]);
    }
  }

  function Pops(n: nat): seq<Op> { if n == 0 then [] else [Pop(false, false)] + Pops(n - 1) }

  lemma DrainSplit(q: seq<Id>, popped: seq<Id>, n: nat)
    requires 0 < n <= |q|
    ensures q[1..][n - 1..] == q[n..] && (popped + [q[0]]) + q[1..][..n - 1] == popped + q[..n]
  {
  }

  // n pops of a closed queue hand out its n oldest ids.
  lemma {:induction false} PopsDrain(r: Outcome, n: nat)
    requires r.queue.closed && n <= |r.queue.items|
    ensures Run(r, Pops(n)) ==
            Outcome(Channel(r.queue.items[n..], true), r.accepted, r.popped + r.queue.items[..n])
    decreases n
  {
    var q := r.queue.items;
    if n == 0 {
    } else {
      var r1 := Outcome(Channel(q[1..], true), r.accepted, r.popped + [q[0]]);
      PopsDrain(r1, n - 1);
      DrainSplit(q, r.popped, n);
    }
  }

  /** A close is final but loses nothing: every later push is refused, every queued id is still handed
      out, oldest first, and only then does a pop report the queue drained. */
  lemma CloseDrains(r: Outcome, id: Id, n: nat)
    requires n <= |r.queue.items|
    ensures
      var q, closed := r.queue.items, Apply(r, Close);
      var t := Run(closed, Pops(n));
      && PushStep(closed.queue, id).1 == ErrClosed
      && t.popped == r.popped + q[..n]
      && PopStep(t.queue, false, false).1 == if n == |q| then Drained else Item(q[n])
  {
    PopsDrain(Apply(r, Close), n);
  }
}
