/** The pod's buffer and the session's writer together: replies and requests may be lost and
    store writes may fail, yet each accepted event reaches the log once and in order. */
module ExactlyOnce {
  import opened Wrappers
  import opened Json
  import opened Canonical
  import opened Chain
  import opened Index
  import opened Writer
  import opened Recovery
  import opened AppendBuffer

  /** `delivered`, `accepted` and `loggedAt` (where the in-flight event was committed) are
      history; `base` is the length of the log when the writer woke. */
  datatype World = World(
    buffer: Buffer, tail: Tail, log: seq<Value>, record: Option<Record>,
    base: nat, delivered: seq<Value>, accepted: seq<Value>, loggedAt: Option<nat>)

  datatype Step =
    | Enqueue(event: Value)
    | PickUp
    /** One attempt: lost on the way, or handled by the writer with the reply heard or lost. */
    | Attempt(arrives: bool, io: AppendIO, heard: bool)
    /** Somebody else's append to the same session. */
    | Other(body: Value, io: AppendIO)

  predicate Enabled(w: World, step: Step) {
    match step
    case PickUp => CanPickUp(w.buffer)
    case Attempt(_, _, _) => w.buffer.inFlight.Some?
    case _ => true
  }

  function Next(d: Digest, max: nat, w: World, step: Step): World
    requires Enabled(w, step)
  {
    match step
    case Enqueue(event) =>
      var (buffer, ok) := Enqueued(w.buffer, event, max);
      w.(buffer := buffer, accepted := if ok then w.accepted + [event] else w.accepted)
    case PickUp => w.(buffer := PickedUp(w.buffer))
    case Attempt(arrives, io, heard) =>
      if !arrives then w
      else
        var done := Handle(d, w.tail, w.log, w.record, w.buffer.inFlight.value, io);
        var u := w.(tail := done.tail, log := done.log, record := done.record,
                    loggedAt := if done.reply.Committed? then Some(|w.log|) else w.loggedAt);
        if heard && (done.reply.Committed? || done.reply.Duplicate?)
        then u.(buffer := Acknowledged(w.buffer), delivered := w.delivered + [w.buffer.inFlight.value],
                loggedAt := None)
        else u
    case Other(body, io) =>
      var done := Handle(d, w.tail, w.log, w.record, body, io);
      w.(tail := done.tail, log := done.log, record := done.record)
  }

  // ---------------------------------------------------------------- what is assumed

  function Turn(event: Value): nat { TurnOr(event, 0) }

  /** The conversation's own contents are told apart by `mine`; its events are pairwise
      different and their turn ids do not fall, as `_turn_id` only ever grows. */
  predicate Allowed(mine: Value -> bool, w: World, step: Step) {
    match step
    case Enqueue(event) =>
      && mine(Content(event))
      && (forall a <- w.accepted :: Content(a) != Content(event) && Turn(a) <= Turn(event))
    case Other(body, _) => !mine(Content(body))
    case _ => true
  }

  /** Fewer than 64 other commits since the in-flight event was committed. */
  predicate InWindow(w: World) {
    w.loggedAt.Some? ==> |w.log| < w.loggedAt.value + 1 + RECENT_HASHES
  }

  // ---------------------------------------------------------------- the duplicate window

  /** The window is exactly the latest 64 commits since the writer woke. */
  ghost predicate WindowExact(d: Digest, log: seq<Value>, seen: seq<string>, base: nat) {
    && base <= |log|
    && |seen| == (if |log| - base < RECENT_HASHES then |log| - base else RECENT_HASHES)
    && Windowed(d, log, seen)
  }

  lemma WindowExactKept(d: Digest, tail: Tail, log: seq<Value>, record: Option<Record>, body: Value, io: AppendIO,
      base: nat)
    requires Sound(d) && WindowExact(d, log, tail.seen, base)
    ensures var done := Handle(d, tail, log, record, body, io); WindowExact(d, done.log, done.tail.seen, base)
  {
    ReplyIsTrue(d, tail, log, record, body, io);
  }

  predicate DistinctContents(log: seq<Value>) {
    forall i, j | 0 <= i < j < |log| :: Content(log[i]) != Content(log[j])
  }

  lemma ForgottenHash(d: Digest, log: seq<Value>, seen: seq<string>, k: nat, content: string)
    requires Sound(d) && Windowed(d, log, seen) && DistinctContents(log)
    requires k < |log| - |seen| && ContentHash(d, log[k]) == Ok(content)
    ensures content !in seen
  {
    if content in seen {
      var i :| 0 <= i < |seen| && seen[i] == content;
      var j := |log| - |seen| + i;
      assert ContentHash(d, log[j]) == Ok(seen[j - (|log| - |seen|)]);
      SameHashSameContent(d, log[j], log[k]);
    }
  }

  lemma WindowMembership(d: Digest, log: seq<Value>, seen: seq<string>, base: nat, k: nat, content: string)
    requires Sound(d) && WindowExact(d, log, seen, base) && DistinctContents(log)
    requires k < |log| && ContentHash(d, log[k]) == Ok(content)
    ensures content in seen <==> |log| - |seen| <= k
  {
    var n := |log| - |seen|;
    if n <= k {
      assert ContentHash(d, log[k]) == Ok(seen[k - n]);
    } else {
      ForgottenHash(d, log, seen, k, content);
    }
  }

  /** A retry of the event at position `k` is recognised exactly while the same writer is up
      and fewer than 64 other commits followed; otherwise it would be logged again. */
  lemma RetryRecognisedExactly(d: Digest, tail: Tail, log: seq<Value>, record: Option<Record>, body: Value,
      io: AppendIO, base: nat, k: nat)
    requires Sound(d) && WindowExact(d, log, tail.seen, base) && DistinctContents(log)
    requires k < |log| && Content(log[k]) == Content(body) && ContentHash(d, body).Ok?
    ensures Handle(d, tail, log, record, body, io).reply.Duplicate? <==> base <= k && |log| - 1 - k < RECENT_HASHES
  {
    SameContentSameHash(d, log[k], body);
    WindowMembership(d, log, tail.seen, base, k, ContentHash(d, body).value);
  }

  /** So the log keeps its contents distinct through the retry exactly then. */
  lemma RetryStoredOnceExactly(d: Digest, tail: Tail, log: seq<Value>, record: Option<Record>, body: Value,
      idx: AdvanceIO, base: nat, k: nat)
    requires Sound(d) && WindowExact(d, log, tail.seen, base) && DistinctContents(log)
    requires k < |log| && Content(log[k]) == Content(body) && ContentHash(d, body).Ok? && Seal(d, body, tail.tip).Ok?
    ensures DistinctContents(Handle(d, tail, log, record, body, StoreUp(idx)).log) <==>
      base <= k && |log| - 1 - k < RECENT_HASHES
  {
    RetryRecognisedExactly(d, tail, log, record, body, StoreUp(idx), base, k);
    ReplyIsTrue(d, tail, log, record, body, StoreUp(idx));
    var done := Handle(d, tail, log, record, body, StoreUp(idx));
    if done.reply.Committed? {
      assert done.log[k] == log[k] && Content(done.log[k]) == Content(done.log[|log|]);
    }
  }

  lemma SameContentSameHash(d: Digest, e: Value, f: Value)
    requires Content(e) == Content(f) && f.Obj?
    ensures ContentHash(d, e) == ContentHash(d, f)
  {}

  lemma SameHashSameContent(d: Digest, e: Value, f: Value)
    requires Sound(d) && ContentHash(d, e).Ok? && ContentHash(d, e) == ContentHash(d, f)
    ensures Content(e) == Content(f)
  {
    assert Strip(Content(e)) == Content(e) && Strip(Content(f)) == Content(f);
  }

  // ---------------------------------------------------------------- the invariant

  /** This conversation's part of the log. */
  function Part(mine: Value -> bool, log: seq<Value>): seq<Value> {
    if log == [] then []
    else
      var c := Content(log[|log| - 1]);
      Part(mine, log[..|log| - 1]) + if mine(c) then [c] else []
  }

  function Contents(events: seq<Value>): seq<Value> {
    seq(|events|, i requires 0 <= i < |events| => Content(events[i]))
  }

  /** Contents that must already be in the log. */
  function Logged(w: World): seq<Value> {
    Contents(w.delivered)
    + if w.loggedAt.Some? && w.buffer.inFlight.Some? then [Content(w.buffer.inFlight.value)] else []
  }

  ghost predicate Inv(d: Digest, mine: Value -> bool, w: World) {
    && w.accepted == w.delivered + Outstanding(w.buffer)
    && Ours(mine, w.accepted)
    && WindowExact(d, w.log, w.tail.seen, w.base)
    && Part(mine, w.log) == Logged(w)
    && CommitKnown(d, w)
  }

  /** Events of one conversation: recognised, pairwise different, turn ids never falling. */
  predicate Ours(mine: Value -> bool, events: seq<Value>) {
    && (forall e <- events :: mine(Content(e)))
    && (forall i, j | 0 <= i < j < |events| ::
          Content(events[i]) != Content(events[j]) && Turn(events[i]) <= Turn(events[j]))
  }

  /** Where the in-flight event was committed, if its acknowledgement was lost. */
  predicate CommitKnown(d: Digest, w: World) {
    w.loggedAt.Some? ==>
      && w.buffer.inFlight.Some? && w.base <= w.loggedAt.value < |w.log|
      && ContentHash(d, w.buffer.inFlight.value).Ok?
      && ContentHash(d, w.log[w.loggedAt.value]) == ContentHash(d, w.buffer.inFlight.value)
  }

  lemma PartSnoc(mine: Value -> bool, log: seq<Value>, event: Value)
    ensures Part(mine, log + [event]) == Part(mine, log) + if mine(Content(event)) then [Content(event)] else []
  {
    assert (log + [event])[..|log|] == log;
  }

  lemma {:induction false} PartHolds(mine: Value -> bool, log: seq<Value>, event: Value)
    requires event in log && mine(Content(event))
    ensures Content(event) in Part(mine, log)
  {
    var n := |log| - 1;
    if event != log[n] { PartHolds(mine, log[..n], event); }
  }

  /** A content of ours that is not yet logged is not in the window. */
  lemma UnloggedIsNew(d: Digest, mine: Value -> bool, log: seq<Value>, seen: seq<string>, event: Value)
    requires Sound(d) && Windowed(d, log, seen) && mine(Content(event)) && Content(event) !in Part(mine, log)
    requires ContentHash(d, event).Ok?
    ensures ContentHash(d, event).value !in seen
  {
    if ContentHash(d, event).value in seen {
      var i :| 0 <= i < |seen| && seen[i] == ContentHash(d, event).value;
      var e := log[|log| - |seen| + i];
      SameHashSameContent(d, e, event);
      PartHolds(mine, log, e);
    }
  }

  lemma OursSnoc(mine: Value -> bool, events: seq<Value>, event: Value)
    requires Ours(mine, events) && mine(Content(event))
    requires forall a <- events :: Content(a) != Content(event) && Turn(a) <= Turn(event)
    ensures Ours(mine, events + [event])
  {}

  lemma EnqueueKeeps(d: Digest, mine: Value -> bool, max: nat, w: World, event: Value)
    requires Inv(d, mine, w) && Allowed(mine, w, Enqueue(event))
    ensures Inv(d, mine, Next(d, max, w, Enqueue(event)))
  {
    OursSnoc(mine, w.accepted, event);
    var t := Next(d, max, w, Enqueue(event));
    assert t.accepted == t.delivered + Outstanding(t.buffer);
  }

  lemma PickUpKeeps(d: Digest, mine: Value -> bool, max: nat, w: World)
    requires Inv(d, mine, w) && CanPickUp(w.buffer)
    ensures Inv(d, mine, Next(d, max, w, PickUp))
  {
    assert w.buffer.queue == [w.buffer.queue[0]] + w.buffer.queue[1..];
  }

  lemma OtherKeeps(d: Digest, mine: Value -> bool, max: nat, w: World, body: Value, io: AppendIO)
    requires Sound(d) && Inv(d, mine, w) && !mine(Content(body))
    ensures Inv(d, mine, Next(d, max, w, Other(body, io)))
  {
    var done := Handle(d, w.tail, w.log, w.record, body, io);
    WindowExactKept(d, w.tail, w.log, w.record, body, io, w.base);
    if done.reply.Committed? {
      var sealed := Seal(d, body, w.tail.tip).value;
      SealedContent(d, body, w.tail.tip);
      PartSnoc(mine, w.log, sealed);
    }
  }

  /** The in-flight event is one of ours and not among the delivered ones. */
  lemma InFlightIsNew(mine: Value -> bool, delivered: seq<Value>, b: Buffer)
    requires b.inFlight.Some? && Ours(mine, delivered + Outstanding(b))
    ensures mine(Content(b.inFlight.value)) && Content(b.inFlight.value) !in Contents(delivered)
  {
    var all := delivered + Outstanding(b);
    assert all[|delivered|] == b.inFlight.value;
    assert forall i | 0 <= i < |delivered| :: all[i] == delivered[i];
  }

  /** A retry of an event whose acknowledgement was lost is answered Duplicate. */
  lemma RetryIsDuplicate(d: Digest, w: World, io: AppendIO)
    requires WindowExact(d, w.log, w.tail.seen, w.base) && CommitKnown(d, w) && InWindow(w) && w.loggedAt.Some?
    ensures var done := Handle(d, w.tail, w.log, w.record, w.buffer.inFlight.value, io);
      done.reply.Duplicate? && done.log == w.log && done.tail == w.tail
  {
    var n := |w.log| - |w.tail.seen|;
    assert ContentHash(d, w.log[n + (w.loggedAt.value - n)]) == Ok(w.tail.seen[w.loggedAt.value - n]);
  }

  /** A first attempt is never taken for a duplicate; if it commits, it adds this event only. */
  lemma FirstAttemptIsNew(d: Digest, mine: Value -> bool, w: World, io: AppendIO)
    requires Sound(d) && Inv(d, mine, w) && w.buffer.inFlight.Some? && w.loggedAt.None?
    ensures var event := w.buffer.inFlight.value;
      var done := Handle(d, w.tail, w.log, w.record, event, io);
      && !done.reply.Duplicate?
      && (done.reply.Committed? ==> Part(mine, done.log) == Contents(w.delivered) + [Content(event)])
      && (done.reply.Committed? ==> |done.log| == |w.log| + 1 && ContentHash(d, event).Ok?)
      && (done.reply.Committed? ==> ContentHash(d, done.log[|w.log|]) == ContentHash(d, event))
  {
    var event := w.buffer.inFlight.value;
    var done := Handle(d, w.tail, w.log, w.record, event, io);
    InFlightIsNew(mine, w.delivered, w.buffer);
    assert Part(mine, w.log) == Contents(w.delivered);
    if ContentHash(d, event).Ok? { UnloggedIsNew(d, mine, w.log, w.tail.seen, event); }
    if done.reply.Committed? {
      SealedContent(d, event, w.tail.tip);
      PartSnoc(mine, w.log, Seal(d, event, w.tail.tip).value);
    }
  }

  /** An attempt never logs the in-flight event twice, and is never wrongly taken for a
      duplicate. */
  lemma AttemptKeeps(d: Digest, mine: Value -> bool, max: nat, w: World, io: AppendIO, heard: bool)
    requires Sound(d) && Inv(d, mine, w) && w.buffer.inFlight.Some? && InWindow(w)
    ensures Inv(d, mine, Next(d, max, w, Attempt(true, io, heard)))
  {
    var event := w.buffer.inFlight.value;
    WindowExactKept(d, w.tail, w.log, w.record, event, io, w.base);
    AcknowledgeShape(w.delivered, event, w.buffer);
    if w.loggedAt.Some? {
      RetryIsDuplicate(d, w, io);
    } else {
      FirstAttemptIsNew(d, mine, w, io);
      ReplyIsTrue(d, w.tail, w.log, w.record, event, io);
    }
  }

  lemma AcknowledgeShape(delivered: seq<Value>, event: Value, b: Buffer)
    requires b.inFlight == Some(event)
    ensures delivered + Outstanding(b) == (delivered + [event]) + Outstanding(Acknowledged(b))
    ensures Contents(delivered + [event]) == Contents(delivered) + [Content(event)]
  {}

  lemma StepKeeps(d: Digest, mine: Value -> bool, max: nat, w: World, step: Step)
    requires Sound(d) && Inv(d, mine, w) && Enabled(w, step) && Allowed(mine, w, step) && InWindow(w)
    ensures Inv(d, mine, Next(d, max, w, step))
  {
    match step
    case Enqueue(event) => EnqueueKeeps(d, mine, max, w, event);
    case PickUp => PickUpKeeps(d, mine, max, w);
    case Attempt(arrives, io, heard) => if arrives { AttemptKeeps(d, mine, max, w, io, heard); }
    case Other(body, io) => OtherKeeps(d, mine, max, w, body, io);
  }

  // ---------------------------------------------------------------- every run

  predicate GoodRun(d: Digest, mine: Value -> bool, max: nat, w: World, steps: seq<Step>)
    decreases |steps|
  {
    InWindow(w) &&
    (steps != [] ==>
      && Enabled(w, steps[0]) && Allowed(mine, w, steps[0])
      && GoodRun(d, mine, max, Next(d, max, w, steps[0]), steps[1..]))
  }

  function Run(d: Digest, mine: Value -> bool, max: nat, w: World, steps: seq<Step>): World
    requires GoodRun(d, mine, max, w, steps)
    decreases |steps|
  {
    if steps == [] then w else Run(d, mine, max, Next(d, max, w, steps[0]), steps[1..])
  }

  /** A conversation that starts on a live writer with an empty buffer. */
  predicate Start(mine: Value -> bool, w: World) {
    && w.buffer == Buffer([], None, false) && w.delivered == [] && w.accepted == [] && w.loggedAt == None
    && Part(mine, w.log) == []
  }

  lemma {:induction false} RunKeeps(d: Digest, mine: Value -> bool, max: nat, w: World, steps: seq<Step>)
    requires Sound(d) && Inv(d, mine, w) && GoodRun(d, mine, max, w, steps)
    ensures Inv(d, mine, Run(d, mine, max, w, steps))
    decreases |steps|
  {
    if steps != [] {
      StepKeeps(d, mine, max, w, steps[0]);
      RunKeeps(d, mine, max, Next(d, max, w, steps[0]), steps[1..]);
    }
  }

  /** Exactly once, in order: nothing accepted is lost or reordered, this conversation's part
      of the log is what was delivered, or that and the in-flight event, it holds no content
      twice, and its turn ids never fall. */
  lemma ExactlyOnceInOrder(d: Digest, mine: Value -> bool, max: nat, w: World, steps: seq<Step>)
    requires Sound(d) && Start(mine, w) && WindowExact(d, w.log, w.tail.seen, w.base)
    requires GoodRun(d, mine, max, w, steps)
    ensures var t := Run(d, mine, max, w, steps);
      var part := Part(mine, t.log);
      && t.accepted == t.delivered + Outstanding(t.buffer)
      && (part == Contents(t.delivered)
          || (t.buffer.inFlight.Some? && part == Contents(t.delivered + [t.buffer.inFlight.value])))
      && part <= Contents(t.accepted)
      && (forall i, j | 0 <= i < j < |part| :: part[i] != part[j] && Turn(part[i]) <= Turn(part[j]))
  {
    RunKeeps(d, mine, max, w, steps);
    var t := Run(d, mine, max, w, steps);
    var part := Part(mine, t.log);
    if t.buffer.inFlight.Some? {
      AcknowledgeShape(t.delivered, t.buffer.inFlight.value, t.buffer);
    }
    assert part <= Contents(t.accepted);
    forall i, j | 0 <= i < j < |part| ensures part[i] != part[j] && Turn(part[i]) <= Turn(part[j]) {
      assert part[i] == Content(t.accepted[i]) && part[j] == Content(t.accepted[j]);
      ContentKeepsTurn(t.accepted[i]);
      ContentKeepsTurn(t.accepted[j]);
    }
  }

  lemma ContentKeepsTurn(event: Value)
    ensures Turn(Content(event)) == Turn(event)
  {}
}
