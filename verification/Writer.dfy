/** The single writer of one session (crates/memoryd/src/writer.rs): store line first, index
    second, a window of recent content hashes, and recovery when the writer wakes. */
module Writer {
  import opened Wrappers
  import opened Json
  import opened Canonical
  import opened Chain
  import opened Index
  import opened Store

  const RECENT_HASHES: nat := 64

  datatype AppendResult =
    | Committed(hash: string, turn: nat)
    | Duplicate(hash: string)
    | Rejected(error: ChainError)
    | Retryable

  /** What the outside does to one append: the store write fails, or it lands and the index
      update gets as far as `idx`. */
  datatype AppendIO = StoreDown | StoreUp(idx: AdvanceIO)

  datatype Tail = Tail(tip: string, lastTurn: nat, seen: seq<string>)

  // ---------------------------------------------------------------- specification

  /** The identity a retry reproduces: the digest of the body without its chain fields. */
  function ContentHash(d: Digest, body: Value): Result<string, ChainError> {
    if !body.Obj? then Err(NotObject) else d(Obj(body.fields - {"prev_hash", "hash"}))
  }

  function Window(seen: seq<string>): seq<string> {
    if |seen| > RECENT_HASHES then seen[|seen| - RECENT_HASHES..] else seen
  }

  function TurnOr(body: Value, other: nat): nat {
    match U64Field(body, "turn_id") case Some(t) => t case None => other
  }

  datatype Handled = Handled(tail: Tail, log: seq<Value>, record: Option<Record>, reply: AppendResult)

  /** One message of the writer's loop. */
  function Handle(d: Digest, tail: Tail, log: seq<Value>, record: Option<Record>, body: Value, io: AppendIO): Handled {
    match ContentHash(d, body)
    case Err(e) => Handled(tail, log, record, Rejected(e))
    case Ok(content) =>
      if content in tail.seen then Handled(tail, log, record, Duplicate(content))
      else
        match Seal(d, body, tail.tip)
        case Err(e) => Handled(tail, log, record, Rejected(e))
        case Ok(sealed) =>
          if io.StoreDown? then Handled(tail, log, record, Retryable)
          else
            var hash := TipOf([sealed]);
            var turn := TurnOr(body, tail.lastTurn);
            Handled(
              Tail(hash, if tail.lastTurn < turn then turn else tail.lastTurn, Window(tail.seen + [content])),
              log + [sealed],
              Advanced(record, hash, turn, |log| + 1, io.idx),
              Committed(hash, turn))
  }

  function MaxTurn(log: seq<Value>): nat {
    if log == [] then 0
    else
      var before := MaxTurn(log[..|log| - 1]);
      var t := TurnOr(log[|log| - 1], 0);
      if before < t then t else before
  }

  /** The owner bound by the first system note that names one. */
  function OwnerFromLog(log: seq<Value>): Option<string> {
    if log == [] then None
    else
      match OwnerOf(log[0])
      case Some(o) => Some(o)
      case None => OwnerFromLog(log[1..])
  }

  function OwnerOf(event: Value): Option<string> {
    if StrField(event, "kind") == Some("note") && StrField(event, "role") == Some("system")
      && event.Obj? && "meta" in event.fields
    then StrField(event.fields["meta"], "owner")
    else None
  }

  /** What the outside does to one wake-up: whether the last line can be read, whether the
      record can, whether the log can be replayed, whether the record is seen again on the way
      to healing it, and how far that gets. */
  datatype WakeIO = WakeIO(tailRead: bool, snapshotRead: bool, logRead: bool, ownerRead: bool, heal: HealIO)

  const AllUp := WakeIO(true, true, true, true, HealDone)

  /** The record a replay writes; the owner goes with it only when no record is seen. */
  function Mended(log: seq<Value>, record: Option<Record>, ownerRead: bool): Option<Record> {
    var owner := if record.Some? && ownerRead then None else OwnerFromLog(log);
    Healed(record, TipOf(log), MaxTurn(log), |log|, |log|, owner)
  }

  /** `replay_tip_from_log`: the tip and last turn of the log, and the record healed; genesis if
      the log does not check or the heal reports an error. */
  function Replay(d: Digest, log: seq<Value>, record: Option<Record>, ownerRead: bool, heal: HealIO): (string, nat,
      Option<Record>) {
    if log == [] || !Accepted(d, log) || heal.HealLost? then (GENESIS, 0, record)
    else if heal.HealUnconfirmed? then (GENESIS, 0, Mended(log, record, ownerRead))
    else (TipOf(log), MaxTurn(log), Mended(log, record, ownerRead))
  }

  predicate Trusted(log: seq<Value>, record: Option<Record>) {
    && log != [] && record.Some? && record.value.tip.Some?
    && StrField(log[|log| - 1], "hash") == record.value.tip
  }

  /** Recovery stops at the record: both it and the last line are read, and they agree. */
  predicate Trusts(log: seq<Value>, record: Option<Record>, io: WakeIO) {
    io.tailRead && io.snapshotRead && Trusted(log, record)
  }

  /** `recover_tail`: trust the record when its tip is the last logged hash, else replay; any
      error on the way leaves the writer at genesis. */
  function Recover(d: Digest, log: seq<Value>, record: Option<Record>, io: WakeIO): (string, nat, Option<Record>) {
    if Trusts(log, record, io) then
      (record.value.tip.value, match record.value.lastTurn case Some(t) => t case None => 0, record)
    else if io.logRead then Replay(d, log, record, io.ownerRead, io.heal)
    else (GENESIS, 0, record)
  }

  // ---------------------------------------------------------------- the writer

  class SessionWriter {
    const d: Digest
    const store: ObjectStore
    const index: SessionIndex
    var tip: string
    var lastTurn: nat
    var seenTail: seq<string>

    ghost function TailState(): Tail
      reads this
    {
      Tail(tip, lastTurn, seenTail)
    }

    /** Wake: recover the tail from the record or the log, with an empty window. */
    constructor (d: Digest, store: ObjectStore, index: SessionIndex, io: WakeIO)
      requires store.Valid()
      modifies index
      ensures this.d == d && this.store == store && this.index == index
      ensures var (t, turn, record) := Recover(d, store.Log(), old(index.record), io);
        TailState() == Tail(t, turn, []) && index.record == record
    {
      this.d, this.store, this.index := d, store, index;
      tip, lastTurn, seenTail := GENESIS, 0, [];
      new;
      var tailHash := None;
      if io.tailRead { tailHash := LastLineHash(); }
      if io.snapshotRead {
        var snap := index.Snapshot();
        if snap.Some? && snap.value.tip.Some? && tailHash == snap.value.tip {
          tip := snap.value.tip.value;
          lastTurn := match snap.value.lastTurn case Some(t) => t case None => 0;
          return;
        }
      }
      if io.logRead { ReplayTip(io.ownerRead, io.heal); }
    }

    method LastLineHash() returns (hash: Option<string>)
      requires store.Valid()
      ensures hash == if store.Log() == [] then None else StrField(store.Log()[|store.Log()| - 1], "hash")
    {
      var log := store.ReadLog();
      var events := log.value;
      hash := if events == [] then None else StrField(events[|events| - 1], "hash");
    }

    /** Replay the log and heal the record; tip and last turn move only if all of it succeeds. */
    method ReplayTip(ownerRead: bool, heal: HealIO)
      requires store.Valid() && tip == GENESIS && lastTurn == 0
      modifies this`tip, this`lastTurn, index
      ensures (tip, lastTurn, index.record) == Replay(d, store.Log(), old(index.record), ownerRead, heal)
    {
      var log := store.ReadLog();
      var events := log.value;
      if events == [] { return; }
      var checked := Fsck(d, events);
      match checked {
        case Err(_) =>
        case Ok((count, last)) =>
          var turn := GreatestTurn(events);
          var owner := if index.record.Some? && ownerRead then None else OwnerFromLog(events);
          var ok := index.Heal(last, turn, count, |events|, owner, heal);
          if ok { tip, lastTurn := last, turn; }
      }
    }

    /** Push one content hash and drop the oldest beyond the window. */
    method Remember(content: string)
      modifies this`seenTail
      ensures seenTail == Window(old(seenTail) + [content])
    {
      seenTail := seenTail + [content];
      ghost var pushed := seenTail;
      while |seenTail| > RECENT_HASHES
        invariant |seenTail| <= |pushed| && seenTail == pushed[|pushed| - |seenTail|..]
        invariant |seenTail| >= (if |pushed| < RECENT_HASHES then |pushed| else RECENT_HASHES)
      {
        seenTail := seenTail[1..];
      }
    }

    method HandleAppend(body: Value, io: AppendIO) returns (reply: AppendResult)
      requires store.Valid()
      modifies this, store, index
      ensures store.Valid()
      ensures Handled(TailState(), store.Log(), index.record, reply)
        == Handle(d, old(TailState()), old(store.Log()), old(index.record), body, io)
    {
      var content := ContentHash(d, body);
      if content.Err? { return Rejected(content.error); }
      if content.value in seenTail { return Duplicate(content.value); }
      var sealed := Seal(d, body, tip);
      if sealed.Err? { return Rejected(sealed.error); }
      var written := store.AppendLine(sealed.value, io.StoreDown?);
      if written.Err? { return Retryable; }
      var hash := TipOf([sealed.value]);
      var turn := TurnOr(body, lastTurn);
      index.Advance(hash, turn, written.value, io.idx);
      Remember(content.value);
      tip := hash;
      if lastTurn < turn { lastTurn := turn; }
      reply := Committed(hash, turn);
    }
  }

  method GreatestTurn(log: seq<Value>) returns (max: nat)
    ensures max == MaxTurn(log)
  {
    max := 0;
    for i := 0 to |log|
      invariant max == MaxTurn(log[..i])
    {
      assert log[..i + 1][..i] == log[..i];
      var t := TurnOr(log[i], 0);
      if max < t { max := t; }
    }
    assert log[..|log|] == log;
  }
}
