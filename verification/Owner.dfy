/** The owner binding of the record (crates/memoryd/src/index.rs:184-187 wants it to survive the
    loss of the record): which steps bring it back from the log, and which lose it. */
module Owner {
  import opened Wrappers
  import opened Json
  import opened Chain
  import opened Index
  import opened Writer
  import opened Recovery

  /** No record, or one that names the owner the log names. */
  predicate Bound(s: System) {
    s.record.Some? ==> s.record.value.owner == OwnerFromLog(s.log)
  }

  /** The step commits an event and its index update starts. */
  predicate Advances(d: Digest, s: System, step: Step) {
    && step.Append? && s.tail.Some? && step.io.StoreUp? && !step.io.idx.NotWritten?
    && Fresh(d, s.tail.value, step.body)
  }

  /** A record appears out of nothing, and so without an owner. */
  predicate Bares(d: Digest, s: System, step: Step) {
    s.record.None? && (step.Epoch? || Advances(d, s, step))
  }

  /** A replay reaches the heal, and no record is seen on the way. */
  predicate Rebinds(log: seq<Value>, record: Option<Record>, io: WakeIO) {
    && log != [] && !Trusts(log, record, io) && io.logRead && !io.heal.HealLost?
    && (record.None? || !io.ownerRead)
  }

  /** The owner is put back, or the record is gone altogether. */
  predicate Mends(s: System, step: Step) {
    match step
    case Wipe => true
    case Rebuild => s.log != []
    case Wake(io) => s.tail.None? && Rebinds(s.log, s.record, io)
    case _ => false
  }

  lemma {:induction false} OwnerStays(log: seq<Value>, event: Value)
    requires OwnerFromLog(log).Some?
    ensures OwnerFromLog(log + [event]) == OwnerFromLog(log)
  {
    if OwnerOf(log[0]).None? {
      OwnerStays(log[1..], event);
      assert (log + [event])[1..] == log[1..] + [event];
    }
  }

  lemma AppendBinds(d: Digest, s: System, body: Value, io: AppendIO, crash: bool)
    requires OwnerFromLog(s.log).Some?
    ensures var t := Next(d, s, Append(body, io, crash));
      && OwnerFromLog(t.log) == OwnerFromLog(s.log)
      && (Bound(t) <==> Bound(s) && !Bares(d, s, Append(body, io, crash)))
  {
    if s.tail.Some? && io.StoreUp? && Fresh(d, s.tail.value, body) {
      OwnerStays(s.log, Seal(d, body, s.tail.value.tip).value);
    }
  }

  /** One wake-up leaves the record with the log's owner, or with none at all, exactly when the
      record did not contradict the log before it or the replay put the owner back. */
  lemma WakeBindsExactly(d: Digest, s: System, io: WakeIO)
    requires Accepted(d, s.log) && s.tail.None? && OwnerFromLog(s.log).Some?
    ensures Bound(Next(d, s, Wake(io))) <==> Bound(s) || Rebinds(s.log, s.record, io)
  {}

  /** After a wake-up that finds the tip, the record names the log's owner if and only if it was
      absent at the wake-up, or not seen, or already named it. */
  lemma WakeOwnerExactly(d: Digest, s: System, io: WakeIO)
    requires Sound(d) && Inv(d, s) && s.tail.None? && s.log != [] && Wakes(s.log, s.record, io)
    ensures var t := Next(d, s, Wake(io));
      t.record.Some? && (t.record.value.owner == OwnerFromLog(s.log) <==>
        || s.record.None?
        || (!Trusts(s.log, s.record, io) && !io.ownerRead && OwnerFromLog(s.log).Some?)
        || s.record.value.owner == OwnerFromLog(s.log))
  {}

  /** Every step: the binding holds after it exactly when the step puts it back, or it held and
      the step does not make a bare record. */
  lemma StepBindsExactly(d: Digest, s: System, step: Step)
    requires Accepted(d, s.log) && OwnerFromLog(s.log).Some?
    ensures OwnerFromLog(Next(d, s, step).log) == OwnerFromLog(s.log)
    ensures Bound(Next(d, s, step)) <==> Mends(s, step) || (Bound(s) && !Bares(d, s, step))
  {
    match step
    case Append(body, io, crash) => AppendBinds(d, s, body, io, crash);
    case Wake(io) => if s.tail.None? { WakeBindsExactly(d, s, io); }
    case _ =>
  }

  /** What happened since the last step that mends: no bare record was made, and before any such
      step the binding held to begin with. */
  predicate KeptSince(d: Digest, s: System, steps: seq<Step>, bound: bool)
    decreases |steps|
  {
    if steps == [] then bound
    else KeptSince(d, Next(d, s, steps[0]), steps[1..],
      Mends(s, steps[0]) || (bound && !Bares(d, s, steps[0])))
  }

  /** Over every lawful run the binding holds at the end exactly when no bare record was made
      since the last wipe, rebuild or owner-restoring wake-up. */
  lemma {:induction false} RunBindsExactly(d: Digest, s: System, steps: seq<Step>)
    requires Sound(d) && Inv(d, s) && LawfulRun(d, s, steps) && OwnerFromLog(s.log).Some?
    ensures Bound(Run(d, s, steps)) <==> KeptSince(d, s, steps, Bound(s))
    decreases |steps|
  {
    if steps != [] {
      StepSafe(d, s, steps[0]);
      StepBindsExactly(d, s, steps[0]);
      RunBindsExactly(d, Next(d, s, steps[0]), steps[1..]);
    }
  }

  /** A wipe under a live writer loses the owner: the next commit makes a bare record, and a wake-up
      with everything working trusts it. Wake-ups never bring it back by themselves. */
  lemma LiveWipeLosesOwner(d: Digest, s: System, body: Value, t: System)
    requires Sound(d) && Inv(d, s) && OwnerFromLog(s.log).Some?
    requires s.tail.Some? && Fresh(d, s.tail.value, body) && TurnAllowed(s.log, body)
    requires t == Next(d, Next(d, s, Wipe), Append(body, StoreUp(Full), false))
    ensures var again := Next(d, Next(d, t, Crash), Wake(AllUp));
      again.record.Some? && again.record.value.owner == None && OwnerFromLog(again.log).Some?
  {
    var sealed := Seal(d, body, s.tail.value.tip).value;
    CommitIs(d, s.tail.value, s.log, None, body, Full, sealed);
    OwnerStays(s.log, sealed);
    assert t.record.Some? && t.record.value.owner == None && t.log == s.log + [sealed];
    SeenRecordKeepsOwner(d, Next(d, t, Crash), AllUp);
  }

  /** A wake-up that sees a record never changes whose it is. */
  lemma SeenRecordKeepsOwner(d: Digest, s: System, io: WakeIO)
    requires s.tail.None? && s.record.Some? && io.ownerRead
    ensures var t := Next(d, s, Wake(io));
      t.record.Some? && t.record.value.owner == s.record.value.owner && t.log == s.log
  {}

  /** So does an epoch written between the loss of the record and the wake-up. */
  lemma EpochLosesOwner(d: Digest, s: System, hash: string, epoch: nat, bare: System)
    requires OwnerFromLog(s.log).Some?
    requires bare == Next(d, Next(d, Next(d, s, Crash), Wipe), Epoch(hash, epoch))
    ensures var again := Next(d, bare, Wake(AllUp));
      again.record.Some? && again.record.value.owner == None && OwnerFromLog(again.log).Some?
  {
    assert bare.record.Some? && bare.record.value.owner == None && bare.tail.None? && bare.log == s.log;
    SeenRecordKeepsOwner(d, bare, AllUp);
  }

  // ---------------------------------------------------------------- stamping

  /** The stamp a user's or an administrator's append puts on a record that does not name the
      caller (crates/memoryd/src/api.rs:109-123): the owner, and the counters from the start. */
  function Stamped(record: Option<Record>, owner: string): Option<Record> {
    Some(Fields(record).(owner := Some(owner), lastTurn := Some(0), count := Some(0), epoch := Some(0)))
  }

  /** A stamp brings the log's owner back when the caller is that owner. It also sets the turn of a
      record whose tip stays trusted back to 0: a faultless wake-up then finds the right last turn
      exactly when there was no turn past 0. */
  lemma StampResetsTurn(d: Digest, s: System, owner: string)
    requires Sound(d) && Inv(d, s) && s.tail.None? && Trusted(s.log, s.record)
    ensures var t := s.(record := Stamped(s.record, owner));
      && (Bound(t) <==> OwnerFromLog(s.log) == Some(owner))
      && Recover(d, t.log, t.record, AllUp).0 == TipOf(s.log)
      && (Recover(d, t.log, t.record, AllUp).1 == LastTurn(s.log) <==> LastTurn(s.log) == 0)
  {
    RecoverExact(d, s.log, s.record, AllUp);
  }
}
