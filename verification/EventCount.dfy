/** The record's `event_count` (crates/memoryd/src/index.rs:170-181): unlike tip, last turn and
    sequence number it is incremented, not set, so it agrees with the log only while no live
    writer loses an update. */
module EventCount {
  import opened Wrappers
  import opened Json
  import opened Chain
  import opened Index
  import opened Writer
  import opened Recovery

  // ---------------------------------------------------------------- what a right counter is

  /** The record is about the whole log and its counter says so. */
  predicate Current(log: seq<Value>, record: Option<Record>) {
    if log == [] then record.None? || (record.value.tip.None? && ZeroCount(record.value))
    else record.Some? && RecordAt(log, record.value, |log|) && record.value.count == Some(|log|)
  }

  predicate ZeroCount(r: Record) { r.count.None? || r.count == Some(0) }

  /** The counter agrees with the prefix the record describes. */
  ghost predicate CountOk(log: seq<Value>, record: Option<Record>) {
    record.Some? ==>
      if record.value.tip.None? then ZeroCount(record.value)
      else exists k | 1 <= k <= |log| :: RecordAt(log, record.value, k) && record.value.count == Some(k)
  }

  function CountOf(record: Option<Record>): nat {
    match Fields(record).count case Some(c) => c case None => 0
  }

  lemma CountOkGrows(log: seq<Value>, record: Option<Record>, event: Value)
    requires CountOk(log, record)
    ensures CountOk(log + [event], record)
  {
    if record.Some? && record.value.tip.Some? {
      var k :| 1 <= k <= |log| && RecordAt(log, record.value, k) && record.value.count == Some(k);
      assert (log + [event])[..k] == log[..k];
      assert RecordAt(log + [event], record.value, k);
    }
  }

  /** An event the record knows nothing of leaves the counter as right or wrong as it was. */
  lemma UnseenEvent(log: seq<Value>, record: Option<Record>, event: Value)
    requires RecordOk(log, record)
    ensures CountOk(log + [event], record) <==> CountOk(log, record)
  {
    if CountOk(log, record) { CountOkGrows(log, record, event); }
    if CountOk(log + [event], record) && record.Some? && record.value.tip.Some? {
      var k :| 1 <= k <= |log| && RecordAt(log, record.value, k);
      var m :| 1 <= m <= |log| + 1 && RecordAt(log + [event], record.value, m) && record.value.count == Some(m);
      assert k == m;
    }
  }

  lemma CurrentIsOk(log: seq<Value>, record: Option<Record>)
    requires Current(log, record)
    ensures CountOk(log, record) && CountOf(record) == |log|
  {}

  /** A record of the whole log counts right exactly when its counter is the length. */
  lemma WholeCount(log: seq<Value>, r: Record)
    requires log != [] && RecordAt(log, r, |log|)
    ensures CountOk(log, Some(r)) <==> r.count == Some(|log|)
    ensures Current(log, Some(r)) <==> r.count == Some(|log|)
  {}

  lemma TrustedCount(d: Digest, log: seq<Value>, record: Option<Record>)
    requires Sound(d) && Accepted(d, log) && RecordOk(log, record) && Trusted(log, record)
    ensures CountOk(log, record) <==> record.value.count == Some(|log|)
    ensures Current(log, record) <==> record.value.count == Some(|log|)
  {
    TrustedIsWhole(d, log, record);
    WholeCount(log, record.value);
  }

  // ---------------------------------------------------------------- one update

  /** The record after an update of an event at the end of `log`. */
  function Updated(log: seq<Value>, record: Option<Record>, idx: AdvanceIO): Option<Record> {
    Advanced(record, TipOf(log), LastTurn(log), |log|, idx)
  }

  lemma UpdateWritten(log: seq<Value>, record: Option<Record>, idx: AdvanceIO)
    requires log != [] && !idx.NotWritten?
    ensures var r := Updated(log, record, idx);
      && r.Some? && RecordAt(log, r.value, |log|)
      && r.value.count == if idx.Full? then Some(CountOf(record) + 1) else Fields(record).count
  {
    assert log[..|log|] == log;
  }

  /** A full update leaves a right counter exactly when the counter was the length before; half an
      update never does. */
  lemma UpdateCounts(log: seq<Value>, record: Option<Record>, idx: AdvanceIO)
    requires log != [] && !idx.NotWritten? && CountOf(record) < |log|
    ensures CountOk(log, Updated(log, record, idx)) <==> idx.Full? && CountOf(record) == |log| - 1
    ensures Current(log, Updated(log, record, idx)) <==> idx.Full? && CountOf(record) == |log| - 1
  {
    UpdateWritten(log, record, idx);
    WholeCount(log, Updated(log, record, idx).value);
  }

  // ---------------------------------------------------------------- every step

  predicate Commits(d: Digest, s: System, step: Step) {
    step.Append? && s.tail.Some? && step.io.StoreUp? && Fresh(d, s.tail.value, step.body)
  }

  /** The counter is written anew from the log, or is gone. */
  predicate Recounts(s: System, step: Step) {
    match step
    case Wipe => true
    case Rebuild => s.log != []
    case Wake(io) =>
      s.tail.None? && s.log != [] && !Trusts(s.log, s.record, io) && io.logRead && !io.heal.HealLost?
    case _ => false
  }

  /** A commit keeps the counter right: it is the length and the update completes, or the update
      never starts. */
  ghost predicate CountsOn(s: System, idx: AdvanceIO) {
    match idx
    case Full => CountOf(s.record) == |s.log|
    case FieldsOnly => false
    case NotWritten => CountOk(s.log, s.record)
  }

  lemma CommitCountsExactly(d: Digest, s: System, body: Value, idx: AdvanceIO, sealed: Value)
    requires IgnoresHash(d) && Inv(d, s) && TurnAllowed(s.log, body) && CountOf(s.record) <= |s.log|
    requires s.tail.Some? && Fresh(d, s.tail.value, body) && Seal(d, body, s.tail.value.tip) == Ok(sealed)
    ensures var done := Handle(d, s.tail.value, s.log, s.record, body, StoreUp(idx));
      && done.log == s.log + [sealed] && CountOf(done.record) <= |done.log|
      && (CountOk(done.log, done.record) <==> CountsOn(s, idx))
  {
    CommitGrows(d, s, body, idx, s.log + [sealed]);
    if idx.NotWritten? {
      UnseenEvent(s.log, s.record, sealed);
    } else {
      UpdateWritten(s.log + [sealed], s.record, idx);
      UpdateCounts(s.log + [sealed], s.record, idx);
    }
  }

  lemma AppendCountsExactly(d: Digest, s: System, body: Value, io: AppendIO, crash: bool)
    requires IgnoresHash(d) && Inv(d, s) && TurnAllowed(s.log, body) && CountOf(s.record) <= |s.log|
    ensures var step := Append(body, io, crash);
      var t := Next(d, s, step);
      && CountOf(t.record) <= |t.log|
      && (CountOk(t.log, t.record) <==> if Commits(d, s, step) then CountsOn(s, io.idx) else CountOk(s.log, s.record))
  {
    if s.tail.Some? {
      if io.StoreDown? || !Fresh(d, s.tail.value, body) {
        NoCommit(d, s.tail.value, s.log, s.record, body, io);
      } else {
        CommitCountsExactly(d, s, body, io.idx, Seal(d, body, s.tail.value.tip).value);
      }
    }
  }

  lemma MendedCounts(d: Digest, log: seq<Value>, record: Option<Record>, ownerRead: bool)
    requires Accepted(d, log) && log != []
    ensures Current(log, Mended(log, record, ownerRead)) && CountOk(log, Mended(log, record, ownerRead))
    ensures CountOf(Mended(log, record, ownerRead)) == |log|
  {
    assert log[..|log|] == log;
    MaxTurnIsLast(d, log);
    CurrentIsOk(log, Mended(log, record, ownerRead));
  }

  lemma WakeCountsExactly(d: Digest, s: System, io: WakeIO)
    requires Inv(d, s) && s.tail.None? && CountOf(s.record) <= |s.log|
    ensures var t := Next(d, s, Wake(io));
      && t.log == s.log && CountOf(t.record) <= |t.log|
      && (CountOk(t.log, t.record) <==> Recounts(s, Wake(io)) || CountOk(s.log, s.record))
  {
    if Recounts(s, Wake(io)) { MendedCounts(d, s.log, s.record, io.ownerRead); }
  }

  lemma RebuildCounts(d: Digest, s: System)
    requires Inv(d, s) && s.log != []
    ensures var t := Next(d, s, Rebuild); CountOk(t.log, t.record) && CountOf(t.record) == |t.log|
  {
    assert s.log[..|s.log|] == s.log;
    MaxTurnIsLast(d, s.log);
    CurrentIsOk(s.log, Next(d, s, Rebuild).record);
  }

  lemma EpochCounts(d: Digest, s: System, hash: string, epoch: nat)
    ensures var t := Next(d, s, Epoch(hash, epoch));
      CountOf(t.record) == CountOf(s.record) && (CountOk(t.log, t.record) <==> CountOk(s.log, s.record))
  {
    var r := Next(d, s, Epoch(hash, epoch)).record.value;
    if s.record.Some? {
      assert forall k | 1 <= k <= |s.log| :: RecordAt(s.log, r, k) == RecordAt(s.log, s.record.value, k);
    }
  }

  /** Every step: the counter is right after it exactly when the step counts anew, or commits and
      counts on, or does neither and it was right. */
  lemma StepCountsExactly(d: Digest, s: System, step: Step)
    requires Sound(d) && Inv(d, s) && Lawful(s, step) && CountOf(s.record) <= |s.log|
    ensures var t := Next(d, s, step);
      && CountOf(t.record) <= |t.log|
      && (CountOk(t.log, t.record) <==> RightAfter(d, s, step, CountOk(s.log, s.record)))
  {
    match step
    case Wake(io) => if s.tail.None? { WakeCountsExactly(d, s, io); }
    case Append(body, io, crash) => AppendCountsExactly(d, s, body, io, crash);
    case Rebuild => if s.log != [] { RebuildCounts(d, s); }
    case Epoch(hash, epoch) => EpochCounts(d, s, hash, epoch);
    case _ =>
  }

  ghost predicate RightAfter(d: Digest, s: System, step: Step, right: bool) {
    Recounts(s, step) || if Commits(d, s, step) then CountsOn(s, step.io.idx) else right
  }

  /** What happened since the counter was last written anew. */
  ghost predicate CountedSince(d: Digest, s: System, steps: seq<Step>, right: bool)
    decreases |steps|
  {
    if steps == [] then right
    else CountedSince(d, Next(d, s, steps[0]), steps[1..], RightAfter(d, s, steps[0], right))
  }

  /** Over every lawful run the counter is right at the end exactly when every commit since it was
      last written anew counted on; and a record whose tip is the last logged hash then shows the
      length of the log. */
  lemma {:induction false} RunCountsExactly(d: Digest, s: System, steps: seq<Step>)
    requires Sound(d) && Inv(d, s) && LawfulRun(d, s, steps) && CountOf(s.record) <= |s.log|
    ensures var t := Run(d, s, steps);
      && (CountOk(t.log, t.record) <==> CountedSince(d, s, steps, CountOk(s.log, s.record)))
      && (Trusted(t.log, t.record) ==>
            (t.record.value.count == Some(|t.log|) <==> CountedSince(d, s, steps, CountOk(s.log, s.record))))
    decreases |steps|
  {
    if steps == [] {
      if Trusted(s.log, s.record) { TrustedCount(d, s.log, s.record); }
    } else {
      StepSafe(d, s, steps[0]);
      StepCountsExactly(d, s, steps[0]);
      RunCountsExactly(d, Next(d, s, steps[0]), steps[1..]);
    }
  }

  // ---------------------------------------------------------------- a rule for callers

  ghost predicate CountInv(d: Digest, s: System) {
    && Inv(d, s) && CountOk(s.log, s.record)
    && (s.tail.Some? ==> Current(s.log, s.record))
  }

  /** No update of a live writer is lost: it completes, or the writer dies before it starts;
      and the record is not wiped under a live writer. */
  predicate CountSafe(s: System, step: Step) {
    match step
    case Append(_, StoreUp(idx), crash) => idx.Full? || (idx.NotWritten? && crash)
    case Wipe => s.tail.None?
    case _ => true
  }

  lemma CommitCounts(d: Digest, s: System, body: Value, idx: AdvanceIO, sealed: Value)
    requires IgnoresHash(d) && CountInv(d, s) && TurnAllowed(s.log, body) && s.tail.Some?
    requires Fresh(d, s.tail.value, body) && Seal(d, body, s.tail.value.tip) == Ok(sealed)
    ensures var done := Handle(d, s.tail.value, s.log, s.record, body, StoreUp(idx));
      && (idx.Full? ==> Current(done.log, done.record))
      && (!idx.FieldsOnly? ==> CountOk(done.log, done.record))
  {
    CurrentIsOk(s.log, s.record);
    CommitCountsExactly(d, s, body, idx, sealed);
    CommitGrows(d, s, body, idx, s.log + [sealed]);
    if idx.Full? { UpdateCounts(s.log + [sealed], s.record, idx); }
  }

  lemma AppendCounts(d: Digest, s: System, body: Value, io: AppendIO, crash: bool)
    requires IgnoresHash(d) && CountInv(d, s)
    requires Lawful(s, Append(body, io, crash)) && CountSafe(s, Append(body, io, crash))
    ensures CountInv(d, Next(d, s, Append(body, io, crash)))
  {
    AppendSafe(d, s, body, io, crash);
    if s.tail.Some? {
      if io.StoreDown? || !Fresh(d, s.tail.value, body) {
        NoCommit(d, s.tail.value, s.log, s.record, body, io);
      } else {
        CommitCounts(d, s, body, io.idx, Seal(d, body, s.tail.value.tip).value);
      }
    }
  }

  lemma CountWithin(log: seq<Value>, record: Option<Record>)
    requires CountOk(log, record) && (record.Some? && record.value.tip.None? ==> ZeroCount(record.value))
    ensures CountOf(record) <= |log|
  {}

  lemma WakeCounts(d: Digest, s: System, io: WakeIO)
    requires Sound(d) && CountInv(d, s) && s.tail.None? && Wakes(s.log, s.record, io)
    ensures CountInv(d, Next(d, s, Wake(io)))
  {
    WakeSafe(d, s, io);
    CountWithin(s.log, s.record);
    WakeCountsExactly(d, s, io);
    if Trusts(s.log, s.record, io) {
      TrustedCount(d, s.log, s.record);
    } else if s.log != [] {
      MendedCounts(d, s.log, s.record, io.ownerRead);
    }
  }

  lemma StepCounts(d: Digest, s: System, step: Step)
    requires Sound(d) && CountInv(d, s) && Lawful(s, step) && CountSafe(s, step)
    ensures CountInv(d, Next(d, s, step))
  {
    StepSafe(d, s, step);
    CountWithin(s.log, s.record);
    StepCountsExactly(d, s, step);
    match step
    case Wake(io) => if s.tail.None? { WakeCounts(d, s, io); }
    case Append(body, io, crash) => AppendCounts(d, s, body, io, crash);
    case Rebuild => if s.log != [] { MendedCounts(d, s.log, s.record, false); }
    case _ =>
  }

  predicate CountSafeRun(d: Digest, s: System, steps: seq<Step>)
    decreases |steps|
  {
    steps == [] || (Lawful(s, steps[0]) && CountSafe(s, steps[0]) && CountSafeRun(d, Next(d, s, steps[0]), steps[1..]))
  }

  /** Over every run in which no live writer loses an update or its record, a record whose tip is
      the last logged hash counts the log exactly, and so does the record of every live writer. */
  lemma {:induction false} RunCounts(d: Digest, s: System, steps: seq<Step>)
    requires Sound(d) && CountInv(d, s) && CountSafeRun(d, s, steps)
    ensures var t := Run(d, s, steps);
      && CountInv(d, t)
      && (Trusted(t.log, t.record) ==> t.record.value.count == Some(|t.log|))
    decreases |steps|
  {
    if steps != [] {
      StepCounts(d, s, steps[0]);
      RunCounts(d, Next(d, s, steps[0]), steps[1..]);
    } else if Trusted(s.log, s.record) {
      TrustedCount(d, s.log, s.record);
    }
  }

  // ---------------------------------------------------------------- the rule is exact

  /** A commit onto a current record: its record is current again exactly when the update completes,
      and its tip is the last logged hash exactly when the update starts. */
  lemma CommitOntoCurrent(d: Digest, log: seq<Value>, before: seq<Value>, event: Value, record: Option<Record>,
      idx: AdvanceIO)
    requires Sound(d) && Accepted(d, log) && log == before + [event]
    requires RecordOk(before, record) && Current(before, record)
    ensures Current(log, Updated(log, record, idx)) <==> idx.Full?
    ensures Trusted(log, Updated(log, record, idx)) <==> !idx.NotWritten?
  {
    CurrentIsOk(before, record);
    AcceptedLink(d, log, before, event);
    if idx.NotWritten? {
      StaleIsUntrusted(d, log, before, event, record);
    } else {
      UpdateWritten(log, record, idx);
      UpdateCounts(log, record, idx);
    }
  }

  lemma StaleIsUntrusted(d: Digest, log: seq<Value>, before: seq<Value>, event: Value, record: Option<Record>)
    requires Sound(d) && Accepted(d, log) && log == before + [event] && RecordOk(before, record)
    ensures !Trusted(log, record) && !Current(log, record)
  {
    if record.Some? && record.value.tip.Some? {
      var k :| 1 <= k <= |before| && RecordAt(before, record.value, k);
      assert record.value.seqNo == Some(k) && k < |log|;
      RecordOkGrows(before, record, event);
      if Trusted(log, record) { TrustedIsWhole(d, log, record); }
    }
  }

  lemma WakeMakesCurrent(d: Digest, s: System)
    requires Sound(d) && Inv(d, s) && s.tail.None? && s.log != []
    ensures var t := Next(d, s, Wake(AllUp));
      Current(t.log, t.record) <==> Current(s.log, s.record) || !Trusted(s.log, s.record)
  {
    if !Trusted(s.log, s.record) { MendedCounts(d, s.log, s.record, true); }
  }

  /** The condition is exact for an append: after a commit, and a wake-up if the writer died, the
      counter agrees with the log if and only if the update completed or never started before a
      death. */
  lemma CountSafeIsExact(d: Digest, s: System, body: Value, idx: AdvanceIO, crash: bool)
    requires Sound(d) && CountInv(d, s) && s.tail.Some? && Fresh(d, s.tail.value, body) && TurnAllowed(s.log, body)
    ensures var step := Append(body, StoreUp(idx), crash);
      var t := Next(d, Next(d, s, step), Wake(AllUp));
      Current(t.log, t.record) <==> CountSafe(s, step)
  {
    var u := Next(d, s, Append(body, StoreUp(idx), crash));
    var sealed := Seal(d, body, s.tail.value.tip).value;
    CommitGrows(d, s, body, idx, s.log + [sealed]);
    CommitOntoCurrent(d, s.log + [sealed], s.log, sealed, s.record, idx);
    AppendSafe(d, s, body, StoreUp(idx), crash);
    if crash { WakeMakesCurrent(d, u); }
  }

  /** And for a wipe: under a live writer the next full commit leaves a count of 1, which agrees
      with the log exactly when the wipe met an empty one. */
  lemma WipeRestartsCount(d: Digest, s: System, body: Value, t: System)
    requires IgnoresHash(d) && Inv(d, s) && s.tail.Some? && Fresh(d, s.tail.value, body) && TurnAllowed(s.log, body)
    requires t == Next(d, Next(d, s, Wipe), Append(body, StoreUp(Full), false))
    ensures |t.log| == |s.log| + 1 && t.record.Some? && t.record.value.count == Some(1)
    ensures Current(t.log, t.record) <==> s.log == []
  {
    var log := s.log + [Seal(d, body, s.tail.value.tip).value];
    CommitGrows(d, Next(d, s, Wipe), body, Full, log);
    UpdateWritten(log, None, Full);
    UpdateCounts(log, None, Full);
  }
}
