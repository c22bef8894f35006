/** The pod registry (crates/orchestrator/src/registry.rs): a hash map and an ordered map that
    every operation keeps in step. Time is in milliseconds. */
module Registry {
  import opened Seqs
  import opened Wrappers
  import Json

  datatype Phase = Booting | Ready | Draining | Dead

  datatype Pod = Pod(
    id: string, addr: string, cap: nat, fill: nat, lastPing: nat, phase: Phase, cooldownUntil: Option<nat>,
    createdAt: nat)

  type Rows = map<string, Pod>

  // ---------------------------------------------------------------- what each operation does to a row

  function Registered(id: string, addr: string, cap: nat, now: nat): Pod {
    Pod(id, addr, cap, 0, now, Booting, None, now)
  }
  function Pinged(p: Pod, fill: nat, now: nat): Pod { p.(fill := Min(fill, p.cap), lastPing := now) }
  function Assigned(p: Pod): Pod { p.(fill := Min(p.fill + 1, p.cap), cooldownUntil := None) }
  function Released(p: Pod): Pod { p.(fill := if p.fill == 0 then 0 else p.fill - 1) }
  function Cooling(p: Pod, until: nat): Pod {
    if p.phase.Ready? && p.fill == 0 then p.(cooldownUntil := Some(until)) else p
  }

  datatype Op =
    | Register(id: string, addr: string, cap: nat, now: nat) | MakeReady(id: string, now: nat)
    | Ping(id: string, fill: nat, now: nat) | Assign(id: string) | Release(id: string) | Drain(id: string)
    | StartCooldown(id: string, now: nat, cooldown: nat) | MarkDead(id: string) | Remove(id: string)

  function Changed(p: Pod, op: Op): Pod {
    match op
    case Register(id, addr, cap, now) => Registered(id, addr, cap, now)
    case MakeReady(_, now) => p.(phase := Ready, lastPing := now)
    case Ping(_, fill, now) => Pinged(p, fill, now)
    case Assign(_) => Assigned(p)
    case Release(_) => Released(p)
    case Drain(_) => p.(phase := Draining, cooldownUntil := None)
    case StartCooldown(_, now, cooldown) => Cooling(p, now + cooldown)
    case MarkDead(_) => p.(phase := Dead)
    case Remove(_) => p
  }

  function Apply(rows: Rows, op: Op): Rows {
    if op.Register? then rows[op.id := Registered(op.id, op.addr, op.cap, op.now)]
    else if op.Remove? then rows - {op.id}
    else if op.id in rows then rows[op.id := Changed(rows[op.id], op)]
    else rows
  }

  predicate RowsOk(rows: Rows) {
    forall id <- rows :: rows[id].id == id && rows[id].fill <= rows[id].cap
  }

  function Snapshot(rows: Rows): seq<Pod> { InOrder(rows, Json.SortedKeys(rows.Keys)) }

  function InOrder(rows: Rows, ids: seq<string>): (r: seq<Pod>)
    requires forall id <- ids :: id in rows
    ensures |r| == |ids| && forall i | 0 <= i < |r| :: r[i] == rows[ids[i]]
  {
    if ids == [] then [] else [rows[ids[0]]] + InOrder(rows, ids[1..])
  }

  class PodRegistry {
    var pods: Rows
    var order: Rows

    /** The two maps hold the same rows, each under its id and within its cap. */
    predicate Valid() reads this { pods == order && RowsOk(pods) }

    constructor ()
      ensures Valid() && pods == map[]
    {
      pods, order := map[], map[];
    }

    method Register(id: string, addr: string, cap: nat, now: nat)
      requires Valid()
      modifies this
      ensures Valid() && pods == Apply(old(pods), Op.Register(id, addr, cap, now))
    {
      var state := Pod(id, addr, cap, 0, now, Booting, None, now);
      pods := pods[id := state];
      order := order[id := state];
    }

    method MakeReady(id: string, now: nat)
      requires Valid()
      modifies this
      ensures Valid() && pods == Apply(old(pods), Op.MakeReady(id, now))
    {
      if id in pods {
        pods := pods[id := pods[id].(phase := Ready, lastPing := now)];
        order := order[id := pods[id]];
      }
    }

    method Ping(id: string, fill: nat, now: nat)
      requires Valid()
      modifies this
      ensures Valid() && pods == Apply(old(pods), Op.Ping(id, fill, now))
    {
      if id in pods {
        var p := pods[id];
        pods := pods[id := p.(fill := Min(fill, p.cap), lastPing := now)];
        order := order[id := pods[id]];
      }
    }

    method Assign(id: string)
      requires Valid()
      modifies this
      ensures Valid() && pods == Apply(old(pods), Op.Assign(id))
    {
      if id in pods {
        var p := pods[id];
        pods := pods[id := p.(fill := Min(p.fill + 1, p.cap), cooldownUntil := None)];
        order := order[id := pods[id]];
      }
    }

    method Release(id: string)
      requires Valid()
      modifies this
      ensures Valid() && pods == Apply(old(pods), Op.Release(id))
    {
      if id in pods {
        var p := pods[id];
        pods := pods[id := p.(fill := if p.fill > 0 then p.fill - 1 else 0)];
        order := order[id := pods[id]];
      }
    }

    method Drain(id: string)
      requires Valid()
      modifies this
      ensures Valid() && pods == Apply(old(pods), Op.Drain(id))
    {
      if id in pods {
        pods := pods[id := pods[id].(phase := Draining, cooldownUntil := None)];
        order := order[id := pods[id]];
      }
    }

    method StartCooldown(id: string, now: nat, cooldown: nat)
      requires Valid()
      modifies this
      ensures Valid() && pods == Apply(old(pods), Op.StartCooldown(id, now, cooldown))
    {
      if id in pods {
        var p := pods[id];
        if p.phase.Ready? && p.fill == 0 {
          pods := pods[id := p.(cooldownUntil := Some(now + cooldown))];
          order := order[id := pods[id]];
        }
      }
    }

    method MarkDead(id: string)
      requires Valid()
      modifies this
      ensures Valid() && pods == Apply(old(pods), Op.MarkDead(id))
    {
      if id in pods {
        pods := pods[id := pods[id].(phase := Dead)];
        order := order[id := pods[id]];
      }
    }

    method Remove(id: string)
      requires Valid()
      modifies this
      ensures Valid() && pods == Apply(old(pods), Op.Remove(id))
    {
      pods := pods - {id};
      order := order - {id};
    }

    /** By id, read from the ordered map. */
    method TakeSnapshot() returns (r: seq<Pod>)
      requires Valid()
      ensures r == Snapshot(pods)
    {
      r := Snapshot(order);
    }
  }

  lemma InOrderHasTheRows(rows: Rows, ids: seq<string>)
    requires RowsOk(rows) && forall id :: id in ids <==> id in rows
    ensures forall p :: p in InOrder(rows, ids) <==> p.id in rows && rows[p.id] == p
  {
    var pods := InOrder(rows, ids);
    forall p: Pod | p.id in rows && rows[p.id] == p ensures p in pods {
      assert p.id in ids;
      var i :| 0 <= i < |ids| && ids[i] == p.id;
      assert pods[i] == p;
    }
  }

  /** Strictly increasing ids. */
  predicate ById(pods: seq<Pod>) {
    forall i, j | 0 <= i < j < |pods| :: Json.Leq(pods[i].id, pods[j].id) && pods[i].id != pods[j].id
  }

  lemma InOrderIsById(rows: Rows, ids: seq<string>)
    requires RowsOk(rows) && Json.Sorted(ids) && forall id <- ids :: id in rows
    ensures ById(InOrder(rows, ids))
  {
    var pods := InOrder(rows, ids);
    forall i, j | 0 <= i < j < |pods| ensures Json.Leq(pods[i].id, pods[j].id) && pods[i].id != pods[j].id {
      assert pods[i].id == ids[i] && pods[j].id == ids[j];
    }
  }

  lemma ByIdIsDistinct(pods: seq<Pod>)
    requires ById(pods)
    ensures forall i, j | 0 <= i < j < |pods| :: pods[i].id != pods[j].id
  {}

  /** A snapshot lists every row once. */
  lemma SnapshotIsTheRows(rows: Rows)
    requires RowsOk(rows)
    ensures forall p :: p in Snapshot(rows) <==> p.id in rows && rows[p.id] == p
    ensures forall i, j | 0 <= i < j < |Snapshot(rows)| :: Snapshot(rows)[i].id != Snapshot(rows)[j].id
  {
    InOrderHasTheRows(rows, Json.SortedKeys(rows.Keys));
    SnapshotIsById(rows);
    ByIdIsDistinct(Snapshot(rows));
  }

  /** By increasing id. */
  lemma SnapshotIsById(rows: Rows)
    requires RowsOk(rows)
    ensures ById(Snapshot(rows))
  {
    InOrderIsById(rows, Json.SortedKeys(rows.Keys));
  }
}
