/** One session's Redis record (crates/memoryd/src/index.rs): a cache over the log. Every
    write may be lost, or stop between its two commands. */
module Index {
  import opened Wrappers

  datatype Record = Record(
    tip: Option<string>, lastTurn: Option<nat>, count: Option<nat>, seqNo: Option<nat>,
    owner: Option<string>, epoch: Option<nat>, summaryPtr: Option<string>)

  /** How far `advance` got: nothing written, the fields set, or the counter bumped too. */
  datatype AdvanceIO = NotWritten | FieldsOnly | Full

  /** How far `heal` got: not written, written but reported as failed, or written. */
  datatype HealIO = HealLost | HealUnconfirmed | HealDone

  function Fields(record: Option<Record>): Record {
    match record case Some(r) => r case None => Record(None, None, None, None, None, None, None)
  }

  function Advanced(record: Option<Record>, hash: string, turn: nat, seqNo: nat, io: AdvanceIO): Option<Record> {
    if io.NotWritten? then record
    else
      var set1 := Fields(record).(tip := Some(hash), lastTurn := Some(turn), seqNo := Some(seqNo));
      if io.FieldsOnly? then Some(set1)
      else Some(set1.(count := Some((match set1.count case Some(c) => c case None => 0) + 1)))
  }

  function Healed(record: Option<Record>, tip: string, lastTurn: nat, count: nat, seqNo: nat,
      owner: Option<string>): Option<Record> {
    var r := Fields(record).(tip := Some(tip), lastTurn := Some(lastTurn), count := Some(count), seqNo := Some(seqNo));
    Some(if owner.Some? then r.(owner := owner) else r)
  }

  function EpochAdvanced(record: Option<Record>, hash: string, epoch: nat): Option<Record> {
    Some(Fields(record).(summaryPtr := Some(hash), epoch := Some(epoch)))
  }

  class SessionIndex {
    var record: Option<Record>

    constructor ()
      ensures record == None
    {
      record := None;
    }

    method Snapshot() returns (r: Option<Record>)
      ensures r == record
    {
      r := record;
    }

    /** HSET of the fields, then HINCRBY of the counter. */
    method Advance(hash: string, turn: nat, seqNo: nat, io: AdvanceIO)
      modifies this
      ensures record == Advanced(old(record), hash, turn, seqNo, io)
    {
      if io.NotWritten? { return; }
      var r := Fields(record);
      record := Some(r.(tip := Some(hash), lastTurn := Some(turn), seqNo := Some(seqNo)));
      if io.FieldsOnly? { return; }
      var count := match record.value.count case Some(c) => c case None => 0;
      record := Some(record.value.(count := Some(count + 1)));
    }

    /** `ok` is what the caller is told. */
    method Heal(tip: string, lastTurn: nat, count: nat, seqNo: nat, owner: Option<string>, io: HealIO)
      returns (ok: bool)
      modifies this
      ensures ok == io.HealDone?
      ensures record == if io.HealLost? then old(record)
                        else Healed(old(record), tip, lastTurn, count, seqNo, owner)
    {
      if io.HealLost? { return false; }
      var r := Fields(record).(tip := Some(tip), lastTurn := Some(lastTurn), count := Some(count),
          seqNo := Some(seqNo));
      if owner.Some? { r := r.(owner := owner); }
      record := Some(r);
      ok := io.HealDone?;
    }

    method AdvanceEpoch(hash: string, epoch: nat)
      modifies this
      ensures record == EpochAdvanced(old(record), hash, epoch)
      ensures record.value.epoch == Some(epoch) && record.value.summaryPtr == Some(hash)
      ensures var was := Fields(old(record));
        && record.value.tip == was.tip && record.value.lastTurn == was.lastTurn && record.value.seqNo == was.seqNo
        && record.value.count == was.count && record.value.owner == was.owner
    {
      record := Some(Fields(record).(summaryPtr := Some(hash), epoch := Some(epoch)));
    }
  }
}
