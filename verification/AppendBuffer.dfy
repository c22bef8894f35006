/** The pod's append buffer (pod/vihs_pod/append_buffer.py): a bounded queue, one event in
    flight, and a flusher that retries that event until memoryd acknowledges it. */
module AppendBuffer {
  import opened Wrappers
  import opened Json

  const MAX_BUFFER: nat := 64

  datatype Buffer = Buffer(queue: seq<Value>, inFlight: Option<Value>, degraded: bool)

  function Enqueued(b: Buffer, event: Value, max: nat): (Buffer, bool) {
    if |b.queue| < max then (b.(queue := b.queue + [event]), true) else (b.(degraded := true), false)
  }

  predicate CanPickUp(b: Buffer) { b.inFlight.None? && b.queue != [] }

  function PickedUp(b: Buffer): Buffer
    requires CanPickUp(b)
  {
    b.(queue := b.queue[1..], inFlight := Some(b.queue[0]))
  }

  function Acknowledged(b: Buffer): Buffer
    requires b.inFlight.Some?
  {
    b.(inFlight := None, degraded := b.degraded && b.queue != [])
  }

  /** Outstanding events, oldest first. */
  function Outstanding(b: Buffer): seq<Value> {
    (match b.inFlight case Some(e) => [e] case None => []) + b.queue
  }

  class AppendBuffer {
    const max: nat
    var queue: seq<Value>
    var inFlight: Option<Value>
    var degraded: bool

    ghost function View(): Buffer
      reads this
    {
      Buffer(queue, inFlight, degraded)
    }

    constructor (max: nat)
      ensures this.max == max && View() == Buffer([], None, false)
    {
      this.max := max;
      queue, inFlight, degraded := [], None, false;
    }

    /** Never waits; a full queue drops the event and degrades the pod. */
    method Enqueue(event: Value) returns (ok: bool)
      modifies this
      ensures (View(), ok) == Enqueued(old(View()), event, max)
      ensures Outstanding(View()) == old(Outstanding(View())) + if ok then [event] else []
    {
      ok := |queue| < max;
      if ok { queue := queue + [event]; } else { degraded := true; }
    }

    method Depth() returns (n: nat)
      ensures n == |Outstanding(View())|
    {
      n := |queue| + if inFlight.Some? then 1 else 0;
    }

    /** The flusher takes the head of the queue; it stays outstanding. */
    method PickUp() returns (event: Value)
      requires CanPickUp(View())
      modifies this
      ensures View() == PickedUp(old(View())) && inFlight == Some(event)
      ensures Outstanding(View()) == old(Outstanding(View()))
    {
      event := queue[0];
      queue := queue[1..];
      inFlight := Some(event);
    }

    /** The flusher's retry loop over the attempts it makes: it leaves the loop with the event
        delivered at the first success, and keeps the event in flight while attempts fail. */
    method Retry(attempts: seq<bool>) returns (used: nat, delivered: bool)
      requires inFlight.Some?
      modifies this
      ensures delivered <==> true in attempts
      ensures delivered ==> 1 <= used <= |attempts| && attempts[used - 1] && true !in attempts[..used - 1]
      ensures View() == if delivered then Acknowledged(old(View())) else old(View())
      ensures Outstanding(View()) == if delivered then old(Outstanding(View()))[1..] else old(Outstanding(View()))
    {
      used := 0;
      delivered := false;
      while used < |attempts|
        invariant used <= |attempts| && true !in attempts[..used]
        invariant View() == old(View())
      {
        used := used + 1;
        assert attempts[..used] == attempts[..used - 1] + [attempts[used - 1]];
        if attempts[used - 1] {
          inFlight := None;
          if queue == [] { degraded := false; }
          delivered := true;
          return;
        }
      }
      assert attempts[..used] == attempts;
    }
  }
}
