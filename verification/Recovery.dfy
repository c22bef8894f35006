/** Every run of one session's log, record and writer: appends, failed store writes, index
    updates lost or half done, crashes at each point, record loss, rebuilds and wake-ups. */
module Recovery {
  import opened Seqs
  import opened Wrappers
  import opened Json
  import opened Canonical
  import opened Chain
  import opened Index
  import opened Writer

  datatype System = System(log: seq<Value>, record: Option<Record>, tail: Option<Tail>)

  datatype Step =
    | Wake(up: WakeIO)
    | Append(body: Value, io: AppendIO, crash: bool)
    | Crash
    | Wipe
    | Rebuild
    | Epoch(hash: string, epoch: nat)

  const Empty := System([], None, None)

  function Next(d: Digest, s: System, step: Step): System {
    match step
    case Wake(io) =>
      if s.tail.Some? then s
      else
        var (tip, turn, record) := Recover(d, s.log, s.record, io);
        System(s.log, record, Some(Tail(tip, turn, [])))
    case Append(body, io, crash) =>
      if s.tail.None? then s
      else
        var done := Handle(d, s.tail.value, s.log, s.record, body, io);
        System(done.log, done.record, if crash then None else Some(done.tail))
    case Crash => s.(tail := None)
    case Wipe => s.(record := None)
    case Rebuild =>
      if s.log != [] && Accepted(d, s.log)
      then s.(record := Healed(s.record, TipOf(s.log), MaxTurn(s.log), |s.log|, |s.log|, OwnerFromLog(s.log)))
      else s
    case Epoch(hash, epoch) => s.(record := EpochAdvanced(s.record, hash, epoch))
  }

  function Run(d: Digest, s: System, steps: seq<Step>): System
    decreases |steps|
  {
    if steps == [] then s else Run(d, Next(d, s, steps[0]), steps[1..])
  }

  /** A wake-up that can find the tip: the log is empty, the record is trusted, or the whole of
      the replay succeeds, its heal included. */
  predicate Wakes(log: seq<Value>, record: Option<Record>, io: WakeIO) {
    log == [] || Trusts(log, record, io) || (io.logRead && io.heal.HealDone?)
  }

  /** What the callers and the outside owe the writer: bodies carry a u64 turn id that does not
      fall, and a waking writer can find the tip. */
  predicate Lawful(s: System, step: Step) {
    match step
    case Wake(io) => s.tail.Some? || Wakes(s.log, s.record, io)
    case Append(body, _, _) => TurnAllowed(s.log, body)
    case _ => true
  }

  predicate TurnAllowed(log: seq<Value>, body: Value) {
    U64Field(body, "turn_id").Some? && LastTurn(log) <= U64Field(body, "turn_id").value
  }

  predicate LawfulRun(d: Digest, s: System, steps: seq<Step>)
    decreases |steps|
  {
    steps == [] || (Lawful(s, steps[0]) && LawfulRun(d, Next(d, s, steps[0]), steps[1..]))
  }

  // ---------------------------------------------------------------- the invariant

  ghost predicate Inv(d: Digest, s: System) {
    && Accepted(d, s.log)
    && RecordOk(s.log, s.record)
    && (s.tail.Some? ==> s.tail.value.tip == TipOf(s.log) && s.tail.value.lastTurn == LastTurn(s.log))
  }

  /** The record describes some prefix of the log. */
  ghost predicate RecordOk(log: seq<Value>, record: Option<Record>) {
    record.Some? && record.value.tip.Some? ==> exists k | 1 <= k <= |log| :: RecordAt(log, record.value, k)
  }

  predicate RecordAt(log: seq<Value>, record: Record, k: nat)
    requires k <= |log|
  {
    && record.tip == Some(TipOf(log[..k]))
    && record.lastTurn == Some(LastTurn(log[..k]))
    && record.seqNo == Some(k)
  }

  lemma {:induction false} MaxTurnIsLast(d: Digest, log: seq<Value>)
    requires Accepted(d, log)
    ensures MaxTurn(log) == LastTurn(log)
  {
    if log != [] {
      var n := |log| - 1;
      MaxTurnIsLast(d, log[..n]);
      assert Fault(d, log[n], TipOf(log[..n]), LastTurn(log[..n]), n).None?;
    }
  }

  lemma RecordOkGrows(log: seq<Value>, record: Option<Record>, event: Value)
    requires RecordOk(log, record)
    ensures RecordOk(log + [event], record)
  {
    if record.Some? && record.value.tip.Some? {
      var k :| 1 <= k <= |log| && RecordAt(log, record.value, k);
      assert (log + [event])[..k] == log[..k];
      assert RecordAt(log + [event], record.value, k);
    }
  }

  lemma WholeRecordOk(log: seq<Value>, record: Record)
    requires log != [] && RecordAt(log, record, |log|)
    ensures RecordOk(log, Some(record))
  {}

  /** When the record's tip is the last logged hash, the record is about the whole log. */
  lemma TrustedIsWhole(d: Digest, log: seq<Value>, record: Option<Record>)
    requires Sound(d) && Accepted(d, log) && RecordOk(log, record) && Trusted(log, record)
    ensures RecordAt(log, record.value, |log|)
  {
    var k :| 1 <= k <= |log| && RecordAt(log, record.value, k);
    assert log[..|log|] == log;
    TipsDistinct(d, log, k, |log|);
  }

  /** The index refines a fold of the log: trusting it without a replay finds the tip, last
      turn and sequence number a full replay computes. */
  lemma TrustIsReplay(d: Digest, log: seq<Value>, record: Option<Record>, io: WakeIO)
    requires Sound(d) && Accepted(d, log) && RecordOk(log, record) && Trusts(log, record, io)
    ensures var replayed := Replay(d, log, record, io.ownerRead, HealDone);
      && Recover(d, log, record, io).0 == replayed.0
      && Recover(d, log, record, io).1 == replayed.1
      && record.value.seqNo == replayed.2.value.seqNo
  {
    TrustedIsWhole(d, log, record);
    MaxTurnIsLast(d, log);
    assert log[..|log|] == log;
  }

  /** Recovery finds the last logged hash exactly when the log is empty, the record is trusted,
      or the replay's reads and its heal succeed; otherwise it ends at genesis. */
  lemma RecoverExact(d: Digest, log: seq<Value>, record: Option<Record>, io: WakeIO)
    requires Sound(d) && Accepted(d, log)
    ensures Recover(d, log, record, io).0 == TipOf(log) <==>
      log == [] || (io.tailRead && io.snapshotRead && Trusted(log, record)) || (io.logRead && io.heal.HealDone?)
    ensures !Wakes(log, record, io) ==> Recover(d, log, record, io).0 == GENESIS && Recover(d, log, record, io).1 == 0
  {
    if log != [] {
      var n := |log| - 1;
      assert Fault(d, log[n], TipOf(log[..n]), LastTurn(log[..n]), n).None?;
    }
  }

  // ---------------------------------------------------------------- safety of every run

  lemma WakeSafe(d: Digest, s: System, io: WakeIO)
    requires Sound(d) && Inv(d, s) && s.tail.None? && Wakes(s.log, s.record, io)
    ensures Inv(d, Next(d, s, Wake(io)))
  {
    assert s.log[..|s.log|] == s.log;
    RecoverExact(d, s.log, s.record, io);
    if Trusts(s.log, s.record, io) {
      TrustedIsWhole(d, s.log, s.record);
    } else if s.log != [] {
      MaxTurnIsLast(d, s.log);
      WholeRecordOk(s.log, Mended(s.log, s.record, io.ownerRead).value);
    }
  }

  lemma NoCommit(d: Digest, tail: Tail, log: seq<Value>, record: Option<Record>, body: Value, io: AppendIO)
    requires io.StoreDown? || !Fresh(d, tail, body)
    ensures var done := Handle(d, tail, log, record, body, io);
      done.log == log && done.record == record && done.tail == tail && !done.reply.Committed?
  {}

  /** What a commit leaves, value by value. */
  lemma CommitIs(d: Digest, tail: Tail, log: seq<Value>, record: Option<Record>, body: Value, idx: AdvanceIO,
      sealed: Value)
    requires Fresh(d, tail, body) && Seal(d, body, tail.tip) == Ok(sealed)
    ensures var done := Handle(d, tail, log, record, body, StoreUp(idx));
      var turn := TurnOr(body, tail.lastTurn);
      && done.log == log + [sealed] && done.tail.tip == TipOf([sealed])
      && done.tail.lastTurn == (if tail.lastTurn < turn then turn else tail.lastTurn)
      && done.record == Advanced(record, TipOf([sealed]), turn, |log| + 1, idx)
      && done.reply.Committed?
  {}

  /** A lawful commit: the log grows by one accepted event, and tip, turn and record follow it. */
  lemma CommitGrows(d: Digest, s: System, body: Value, idx: AdvanceIO, log: seq<Value>)
    requires IgnoresHash(d) && Inv(d, s) && TurnAllowed(s.log, body)
    requires s.tail.Some? && Fresh(d, s.tail.value, body)
    requires log == s.log + [Seal(d, body, s.tail.value.tip).value]
    ensures Accepted(d, log)
    ensures var done := Handle(d, s.tail.value, s.log, s.record, body, StoreUp(idx));
      && done.log == log && done.tail.tip == TipOf(log) && done.tail.lastTurn == LastTurn(log)
      && done.record == Advanced(s.record, TipOf(log), LastTurn(log), |log|, idx)
  {
    var sealed := Seal(d, body, s.tail.value.tip).value;
    CommitIs(d, s.tail.value, s.log, s.record, body, idx, sealed);
    SealExtends(d, s.log, body);
    SealFields(d, body, s.tail.value.tip);
    AcceptedSnoc(d, s.log, sealed);
  }

  lemma AdvancedRecordOk(log: seq<Value>, record: Option<Record>, idx: AdvanceIO)
    requires log != [] && RecordOk(log, record)
    ensures RecordOk(log, Advanced(record, TipOf(log), LastTurn(log), |log|, idx))
  {
    assert log[..|log|] == log;
    if !idx.NotWritten? {
      WholeRecordOk(log, Advanced(record, TipOf(log), LastTurn(log), |log|, idx).value);
    }
  }

  lemma AppendSafe(d: Digest, s: System, body: Value, io: AppendIO, crash: bool)
    requires IgnoresHash(d) && Inv(d, s) && TurnAllowed(s.log, body)
    ensures Inv(d, Next(d, s, Append(body, io, crash)))
  {
    if s.tail.Some? {
      if io.StoreDown? || !Fresh(d, s.tail.value, body) {
        NoCommit(d, s.tail.value, s.log, s.record, body, io);
      } else {
        CommitSafe(d, s, body, io.idx, Seal(d, body, s.tail.value.tip).value);
      }
    }
  }

  lemma CommitSafe(d: Digest, s: System, body: Value, idx: AdvanceIO, sealed: Value)
    requires IgnoresHash(d) && Inv(d, s) && TurnAllowed(s.log, body)
    requires s.tail.Some? && Fresh(d, s.tail.value, body) && Seal(d, body, s.tail.value.tip) == Ok(sealed)
    ensures var done := Handle(d, s.tail.value, s.log, s.record, body, StoreUp(idx));
      Accepted(d, done.log) && RecordOk(done.log, done.record)
      && done.tail.tip == TipOf(done.log) && done.tail.lastTurn == LastTurn(done.log)
  {
    CommitGrows(d, s, body, idx, s.log + [sealed]);
    RecordOkGrows(s.log, s.record, sealed);
    AdvancedRecordOk(s.log + [sealed], s.record, idx);
  }

  lemma StepSafe(d: Digest, s: System, step: Step)
    requires Sound(d) && Inv(d, s) && Lawful(s, step)
    ensures Inv(d, Next(d, s, step))
  {
    match step
    case Wake(io) => if s.tail.None? { WakeSafe(d, s, io); }
    case Append(body, io, crash) => AppendSafe(d, s, body, io, crash);
    case Rebuild =>
      if s.log != [] {
        assert s.log[..|s.log|] == s.log;
        MaxTurnIsLast(d, s.log);
        WholeRecordOk(s.log, Next(d, s, step).record.value);
      }
    case Epoch(_, _) =>
      if s.record.Some? && s.record.value.tip.Some? {
        var k :| 1 <= k <= |s.log| && RecordAt(s.log, s.record.value, k);
        assert RecordAt(s.log, Next(d, s, step).record.value, k);
      }
    case _ =>
  }

  /** Crash-order safety: whatever mix of failures strikes, the log stays accepted by fsck,
      the record describes a prefix of it, and a live writer holds its last hash. */
  lemma {:induction false} RunSafe(d: Digest, s: System, steps: seq<Step>)
    requires Sound(d) && Inv(d, s) && LawfulRun(d, s, steps)
    ensures Inv(d, Run(d, s, steps))
    decreases |steps|
  {
    if steps != [] {
      StepSafe(d, s, steps[0]);
      RunSafe(d, Next(d, s, steps[0]), steps[1..]);
    }
  }

  /** Crash and wake in any reachable state: the new writer has the old one's tip and last
      turn, and the log is untouched; only the duplicate window is forgotten. */
  lemma CrashThenWake(d: Digest, s: System, io: WakeIO)
    requires Sound(d) && Inv(d, s) && s.tail.Some? && Wakes(s.log, s.record, io)
    ensures var again := Next(d, Next(d, s, Crash), Wake(io));
      again.log == s.log && again.tail == Some(s.tail.value.(seen := []))
  {
    WakeSafe(d, Next(d, s, Crash), io);
  }

  // ---------------------------------------------------------------- what the log holds

  function Payload(log: seq<Value>): seq<Value> {
    if log == [] then [] else Payload(log[..|log| - 1]) + [Content(log[|log| - 1])]
  }

  /** An event without its chain fields. */
  function Content(event: Value): Value {
    if event.Obj? then Obj(event.fields - {"prev_hash", "hash"}) else event
  }

  /** Whether the writer seals `body` now: it hashes, is not in the window, and seals. */
  predicate Fresh(d: Digest, tail: Tail, body: Value) {
    ContentHash(d, body).Ok? && ContentHash(d, body).value !in tail.seen && Seal(d, body, tail.tip).Ok?
  }

  /** The content one step adds to the log. */
  function Stored(d: Digest, s: System, step: Step): seq<Value> {
    if step.Append? && s.tail.Some? && step.io.StoreUp? && Fresh(d, s.tail.value, step.body)
    then [Content(step.body)] else []
  }

  function AllStored(d: Digest, s: System, steps: seq<Step>): seq<Value>
    decreases |steps|
  {
    if steps == [] then [] else Stored(d, s, steps[0]) + AllStored(d, Next(d, s, steps[0]), steps[1..])
  }

  lemma StepPayload(d: Digest, s: System, step: Step)
    requires IgnoresHash(d)
    ensures Payload(Next(d, s, step).log) == Payload(s.log) + Stored(d, s, step)
  {
    if Stored(d, s, step) != [] {
      var sealed := Seal(d, step.body, s.tail.value.tip).value;
      SealFields(d, step.body, s.tail.value.tip);
      assert (s.log + [sealed])[..|s.log|] == s.log;
    }
  }

  /** The log holds exactly the stored contents, in order: no failure, crash, wipe or wake-up
      drops, repeats or reorders a line. */
  lemma {:induction false} RunPayload(d: Digest, s: System, steps: seq<Step>)
    requires IgnoresHash(d)
    ensures Payload(Run(d, s, steps).log) == Payload(s.log) + AllStored(d, s, steps)
    decreases |steps|
  {
    if steps != [] {
      var next := Next(d, s, steps[0]);
      StepPayload(d, s, steps[0]);
      RunPayload(d, next, steps[1..]);
      Assoc(Payload(s.log), Stored(d, s, steps[0]), AllStored(d, next, steps[1..]));
    }
  }

  // ---------------------------------------------------------------- what a reply means

  /** The window holds the content hashes of the latest events, oldest first. */
  ghost predicate Windowed(d: Digest, log: seq<Value>, seen: seq<string>) {
    && |seen| <= |log|
    && forall k | |log| - |seen| <= k < |log| :: ContentHash(d, log[k]) == Ok(seen[k - (|log| - |seen|)])
  }

  lemma SealedContent(d: Digest, body: Value, prev: string)
    requires IgnoresHash(d) && Seal(d, body, prev).Ok?
    ensures Content(Seal(d, body, prev).value) == Content(body)
    ensures ContentHash(d, Seal(d, body, prev).value) == ContentHash(d, body)
  {
    SealFields(d, body, prev);
  }

  lemma WindowedSnoc(d: Digest, log: seq<Value>, seen: seq<string>, event: Value, content: string)
    requires Windowed(d, log, seen) && ContentHash(d, event) == Ok(content)
    ensures Windowed(d, log + [event], Window(seen + [content]))
  {
    var log2, seen2 := log + [event], seen + [content];
    forall k | |log2| - |seen2| <= k < |log2|
      ensures ContentHash(d, log2[k]) == Ok(seen2[k - (|log2| - |seen2|)])
    {
      assert k < |log| ==> log2[k] == log[k];
    }
    WindowedDrop(d, log2, seen2);
  }

  lemma WindowedDrop(d: Digest, log: seq<Value>, seen: seq<string>)
    requires Windowed(d, log, seen)
    ensures Windowed(d, log, Window(seen))
  {}

  /** Whatever the writer answers is true of the log it leaves: a commit added this content as
      the last line, a duplicate is already there, and any other answer changed nothing. */
  lemma ReplyIsTrue(d: Digest, tail: Tail, log: seq<Value>, record: Option<Record>, body: Value, io: AppendIO)
    requires Sound(d) && Windowed(d, log, tail.seen)
    ensures var done := Handle(d, tail, log, record, body, io);
      && Windowed(d, done.log, done.tail.seen)
      && (done.reply.Committed? ==> |done.log| == |log| + 1 && done.log[..|log|] == log)
      && (done.reply.Committed? ==> Content(done.log[|log|]) == Content(body) && TipOf(done.log) == done.reply.hash)
      && (done.reply.Duplicate? ==> done.log == log && exists e <- log :: Content(e) == Content(body))
      && (done.reply.Rejected? || done.reply.Retryable? ==>
            done.log == log && done.tail == tail && done.record == record)
  {
    var done := Handle(d, tail, log, record, body, io);
    if done.reply.Committed? {
      var sealed := Seal(d, body, tail.tip).value;
      SealedContent(d, body, tail.tip);
      WindowedSnoc(d, log, tail.seen, sealed, ContentHash(d, body).value);
    } else if done.reply.Duplicate? {
      var i :| 0 <= i < |tail.seen| && tail.seen[i] == done.reply.hash;
      var e := log[|log| - |tail.seen| + i];
      assert ContentHash(d, e) == ContentHash(d, body);
      assert Strip(Content(e)) == Content(e) && Strip(Content(body)) == Content(body);
      assert e in log;
    }
  }

  /** An append onto a live writer keeps the log accepted exactly when the body's turn id is a
      u64 that does not fall; the writer itself never checks. */
  lemma AppendKeepsChainExactly(d: Digest, s: System, body: Value, idx: AdvanceIO)
    requires IgnoresHash(d) && Inv(d, s) && s.tail.Some? && Fresh(d, s.tail.value, body)
    ensures Accepted(d, Next(d, s, Append(body, StoreUp(idx), false)).log) <==> TurnAllowed(s.log, body)
  {
    SealExtends(d, s.log, body);
  }

  /** A writer that woke at genesis over a non-empty log breaks the chain with its first commit. */
  lemma GenesisForkBreaks(d: Digest, s: System, body: Value, idx: AdvanceIO)
    requires Sound(d) && Accepted(d, s.log) && s.log != []
    requires s.tail.Some? && s.tail.value.tip == GENESIS && Fresh(d, s.tail.value, body)
    ensures !Accepted(d, Next(d, s, Append(body, StoreUp(idx), false)).log)
  {
    var sealed := Seal(d, body, GENESIS).value;
    SealFields(d, body, GENESIS);
    AcceptedSnoc(d, s.log, sealed);
    var n := |s.log| - 1;
    assert Fault(d, s.log[n], TipOf(s.log[..n]), LastTurn(s.log[..n]), n).None?;
  }
}
