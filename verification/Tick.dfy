/** One turn of the scaler's loop (crates/orchestrator/src/main.rs): mark stale pods dead, decide,
    carry the decision out against a provider that may refuse anything. */
module Tick {
  import opened Seqs
  import opened Wrappers
  import opened Registry
  import opened Scaler

  /** What the tick runs with. `terminates` are the pods the provider agrees to terminate and
      `deploys` its answers to deployments in turn, None once they run out. */
  datatype Env = Env(queueLen: nat, warmFloor: nat, scaleUpFill: real, cooldown: nat, cap: nat, now: nat,
    terminates: set<string>, deploys: seq<Option<string>>)

  function MarkedDead(rows: Rows, now: nat): Rows {
    map id | id in rows :: if Stale(rows[id], now) then rows[id].(phase := Dead) else rows[id]
  }

  /** The registry while a decision is carried out, and how many deployments were asked for. */
  datatype Exec = Exec(rows: Rows, used: nat)

  function Answer(env: Env, n: nat): Option<string> { if n < |env.deploys| then env.deploys[n] else None }

  function DeployOne(e: Exec, env: Env): Exec {
    match Answer(env, e.used)
    case None => e.(used := e.used + 1)
    case Some(id) => Exec(Apply(e.rows, Register(id, "127.0.0.1:0", env.cap, env.now)), e.used + 1)
  }

  function DeployMany(e: Exec, env: Env, n: nat): Exec
    decreases n
  {
    if n == 0 then e else DeployMany(DeployOne(e, env), env, n - 1)
  }

  function Perform(e: Exec, env: Env, a: Action): Exec {
    match a
    case Deploy(n) => DeployMany(e, env, n)
    case StartCooldown(id) => e.(rows := Apply(e.rows, Op.StartCooldown(id, env.now, env.cooldown)))
    case CancelCooldown(_) => e
    case Terminate(id) => if id in env.terminates then e.(rows := Apply(e.rows, Remove(id))) else e
    case Replace(id) =>
      DeployOne(if id in env.terminates then e.(rows := Apply(e.rows, Remove(id))) else e, env)
    case NoAction => e
  }

  function PerformAll(e: Exec, env: Env, actions: seq<Action>): Exec
    decreases |actions|
  {
    if actions == [] then e else PerformAll(Perform(e, env, actions[0]), env, actions[1..])
  }

  function ViewOf(rows: Rows, env: Env): View {
    View(Snapshot(rows), env.queueLen, env.warmFloor, env.scaleUpFill, env.now)
  }

  function Ticked(rows: Rows, env: Env): Rows {
    PerformAll(Exec(MarkedDead(rows, env.now), 0), env, Decision(ViewOf(MarkedDead(rows, env.now), env))).rows
  }

  // ---------------------------------------------------------------- the loop's body

  method RunTick(registry: PodRegistry, env: Env)
    requires registry.Valid()
    modifies registry
    ensures registry.Valid() && registry.pods == Ticked(old(registry.pods), env)
  {
    MarkStale(registry, env.now);
    var pods := registry.TakeSnapshot();
    var actions := Decide(View(pods, env.queueLen, env.warmFloor, env.scaleUpFill, env.now));
    Execute(registry, env, actions);
  }

  method MarkStale(registry: PodRegistry, now: nat)
    requires registry.Valid()
    modifies registry
    ensures registry.Valid() && registry.pods == MarkedDead(old(registry.pods), now)
  {
    var pods := registry.TakeSnapshot();
    SnapshotIsTheRows(registry.pods);
    MarkListed(registry, pods, now);
  }

  method MarkListed(registry: PodRegistry, pods: seq<Pod>, now: nat)
    requires registry.Valid() && forall p :: p in pods <==> p.id in registry.pods && registry.pods[p.id] == p
    modifies registry
    ensures registry.Valid() && registry.pods == MarkedDead(old(registry.pods), now)
  {
    ghost var before := registry.pods;
    StartMarking(before, pods, now);
    for i := 0 to |pods|
      invariant registry.Valid() && MarkedSoFar(before, pods[i..], now, registry.pods)
    {
      assert pods[i] in pods;
      assert pods[i..] == [pods[i]] + pods[i + 1..];
      MarkOne(before, pods[i], pods[i + 1..], now, registry.pods);
      if Stale(pods[i], now) { registry.MarkDead(pods[i].id); }
    }
    assert pods[|pods|..] == [];
    AllMarked(before, now, registry.pods);
  }

  lemma StartMarking(before: Rows, pods: seq<Pod>, now: nat)
    requires RowsOk(before) && forall p :: p in pods <==> p.id in before && before[p.id] == p
    ensures MarkedSoFar(before, pods[0..], now, before)
  {
    forall id | id in before ensures before[id] in pods[0..] {
      assert pods[0..] == pods;
    }
  }

  lemma AllMarked(before: Rows, now: nat, rows: Rows)
    requires MarkedSoFar(before, [], now, rows)
    ensures rows == MarkedDead(before, now)
  {}

  /** Marked already, or still listed and as it was. */
  ghost predicate MarkedSoFar(before: Rows, pods: seq<Pod>, now: nat, rows: Rows) {
    && rows.Keys == before.Keys
    && forall id <- rows :: rows[id] == MarkedDead(before, now)[id] || (rows[id] == before[id] && before[id] in pods)
  }

  lemma MarkOne(before: Rows, p: Pod, rest: seq<Pod>, now: nat, rows: Rows)
    requires RowsOk(before) && RowsOk(rows) && p.id in before && before[p.id] == p
    requires MarkedSoFar(before, [p] + rest, now, rows)
    ensures MarkedSoFar(before, rest, now, if Stale(p, now) then Apply(rows, MarkDead(p.id)) else rows)
  {
    var after := if Stale(p, now) then Apply(rows, MarkDead(p.id)) else rows;
    forall id | id in after
      ensures after[id] == MarkedDead(before, now)[id] || (after[id] == before[id] && before[id] in rest)
    {
      assert rows[id] == MarkedDead(before, now)[id] || (rows[id] == before[id] && before[id] in [p] + rest);
    }
  }

  method Execute(registry: PodRegistry, env: Env, actions: seq<Action>)
    requires registry.Valid()
    modifies registry
    ensures registry.Valid() && registry.pods == PerformAll(Exec(old(registry.pods), 0), env, actions).rows
  {
    var used := 0;
    ghost var start := Exec(registry.pods, 0);
    for i := 0 to |actions|
      invariant registry.Valid()
      invariant PerformAll(Exec(registry.pods, used), env, actions[i..]) == PerformAll(start, env, actions)
    {
      assert actions[i..][1..] == actions[i + 1..];
      used := ExecuteOne(registry, env, actions[i], used);
    }
  }

  method ExecuteOne(registry: PodRegistry, env: Env, a: Action, before: nat) returns (used: nat)
    requires registry.Valid()
    modifies registry
    ensures registry.Valid() && Exec(registry.pods, used) == Perform(Exec(old(registry.pods), before), env, a)
  {
    used := before;
    match a {
      case Deploy(count) =>
        ghost var start := Exec(registry.pods, used);
        for n := 0 to count
          invariant registry.Valid()
          invariant DeployMany(Exec(registry.pods, used), env, count - n) == DeployMany(start, env, count)
        {
          used := DeployNext(registry, env, used);
        }
      case StartCooldown(id) => registry.StartCooldown(id, env.now, env.cooldown);
      case CancelCooldown(_) =>
      case Terminate(id) => if id in env.terminates { registry.Remove(id); }
      case Replace(id) =>
        if id in env.terminates { registry.Remove(id); }
        used := DeployNext(registry, env, used);
      case NoAction =>
    }
  }

  method DeployNext(registry: PodRegistry, env: Env, before: nat) returns (used: nat)
    requires registry.Valid()
    modifies registry
    ensures registry.Valid() && Exec(registry.pods, used) == DeployOne(Exec(old(registry.pods), before), env)
  {
    match Answer(env, before) {
      case None =>
      case Some(id) => registry.Register(id, "127.0.0.1:0", env.cap, env.now);
    }
    used := before + 1;
  }

  // ---------------------------------------------------------------- live rows

  function LiveRows(rows: Rows): set<string> { set id <- rows | !rows[id].phase.Dead? }

  function LiveIds(pods: seq<Pod>): set<string> { set p <- pods | !p.phase.Dead? :: p.id }

  predicate DistinctIds(pods: seq<Pod>) { forall i, j | 0 <= i < j < |pods| :: pods[i].id != pods[j].id }

  lemma {:induction false} LiveCountIsSet(pods: seq<Pod>)
    requires DistinctIds(pods)
    ensures LiveCount(pods) == |LiveIds(pods)|
  {
    if pods != [] {
      var n := |pods| - 1;
      var p := pods[n];
      LiveCountIsSet(pods[..n]);
      assert pods == pods[..n] + [p];
      if p.phase.Dead? {
        assert LiveIds(pods) == LiveIds(pods[..n]);
      } else {
        assert LiveIds(pods) == LiveIds(pods[..n]) + {p.id};
        assert p.id !in LiveIds(pods[..n]);
      }
    }
  }

  lemma LiveCountOfSnapshot(rows: Rows)
    requires RowsOk(rows)
    ensures LiveCount(Snapshot(rows)) == |LiveRows(rows)|
  {
    SnapshotIsTheRows(rows);
    SnapshotDistinct(rows);
    LiveCountIsSet(Snapshot(rows));
    LiveIdsAreRows(rows, Snapshot(rows));
  }

  lemma SnapshotDistinct(rows: Rows)
    requires RowsOk(rows)
    ensures DistinctIds(Snapshot(rows))
  {
    SnapshotIsTheRows(rows);
  }

  lemma LiveIdsAreRows(rows: Rows, pods: seq<Pod>)
    requires RowsOk(rows) && forall p :: p in pods <==> p.id in rows && rows[p.id] == p
    ensures LiveIds(pods) == LiveRows(rows)
  {
    forall id | id in LiveRows(rows) ensures id in LiveIds(pods) {
      assert rows[id] in pods;
    }
  }

  function TerminatedIds(actions: seq<Action>): set<string> { set a <- actions | a.Terminate? :: a.id }

  lemma {:induction false} FewTerminated(actions: seq<Action>)
    ensures |TerminatedIds(actions)| <= Terminations(actions)
  {
    if actions != [] {
      var n := |actions| - 1;
      FewTerminated(actions[..n]);
      assert actions == actions[..n] + [actions[n]];
      if actions[n].Terminate? {
        assert TerminatedIds(actions) == TerminatedIds(actions[..n]) + {actions[n].id};
      } else {
        assert TerminatedIds(actions) == TerminatedIds(actions[..n]);
      }
    }
  }

  // ---------------------------------------------------------------- carrying a decision out

  lemma {:induction false} DeployManyAdds(e: Exec, env: Env, n: nat)
    ensures LiveRows(e.rows) <= LiveRows(DeployMany(e, env, n).rows)
    decreases n
  {
    if n > 0 { DeployManyAdds(DeployOne(e, env), env, n - 1); }
  }

  lemma PerformKeepsLive(e: Exec, env: Env, a: Action)
    requires !a.Replace?
    ensures LiveRows(e.rows) - TerminatedIds([a]) <= LiveRows(Perform(e, env, a).rows)
  {
    if a.Deploy? { DeployManyAdds(e, env, a.count); }
    if a.Terminate? { assert a in [a] && a.id in TerminatedIds([a]); }
  }

  lemma {:induction false} PerformAllKeepsLive(e: Exec, env: Env, actions: seq<Action>)
    requires forall a <- actions :: !a.Replace?
    ensures LiveRows(e.rows) - TerminatedIds(actions) <= LiveRows(PerformAll(e, env, actions).rows)
    decreases |actions|
  {
    if actions != [] {
      PerformKeepsLive(e, env, actions[0]);
      PerformAllKeepsLive(Perform(e, env, actions[0]), env, actions[1..]);
      assert forall a <- actions[1..] :: a in actions;
      assert TerminatedIds(actions[1..]) <= TerminatedIds(actions);
      assert TerminatedIds([actions[0]]) <= TerminatedIds(actions);
    }
  }

  lemma MarkedOk(rows: Rows, now: nat)
    requires RowsOk(rows)
    ensures RowsOk(MarkedDead(rows, now)) && MarkedDead(rows, now).Keys == rows.Keys
    ensures forall id <- MarkedDead(rows, now) :: !Stale(MarkedDead(rows, now)[id], now)
  {}

  /** Marking first disarms rule 1: a tick never replaces a pod. */
  lemma TickNeverReplaces(rows: Rows, env: Env)
    requires RowsOk(rows)
    ensures forall a <- Decision(ViewOf(MarkedDead(rows, env.now), env)) :: !a.Replace?
  {
    var marked := MarkedDead(rows, env.now);
    var v := ViewOf(marked, env);
    MarkedOk(rows, env.now);
    SnapshotIsTheRows(marked);
    NoReplacements(v.pods, v.now);
    NoReplacement(v);
  }

  lemma NoReplacement(v: View)
    requires Replacements(v.pods, v.now) == []
    ensures forall a <- Decision(v) :: !a.Replace?
  {
    if Wanted(v).None? { DownIsDown(v, |v.pods|); }
  }

  lemma SetMinus(a: set<string>, b: set<string>, c: set<string>)
    requires a - b <= c
    ensures |c| >= |a| - |b|
  {
    assert a == (a - b) + (a * b);
    SubsetSize(a * b, b);
    SubsetSize(a - b, c);
  }

  /** The floor survives a tick, whatever the provider refuses. */
  lemma TickKeepsFloor(rows: Rows, env: Env)
    requires RowsOk(rows)
    ensures |LiveRows(Ticked(rows, env))| >= Min(|LiveRows(MarkedDead(rows, env.now))|, env.warmFloor)
  {
    var marked := MarkedDead(rows, env.now);
    var v := ViewOf(marked, env);
    MarkedOk(rows, env.now);
    TickNeverReplaces(rows, env);
    PerformAllKeepsLive(Exec(marked, 0), env, Decision(v));
    FewTerminated(Decision(v));
    LiveCountOfSnapshot(marked);
    FloorHolds(v);
    SetMinus(LiveRows(marked), TerminatedIds(Decision(v)), LiveRows(Ticked(rows, env)));
  }

  // ---------------------------------------------------------------- who is touched

  /** Ids the provider may hand out. */
  predicate NewId(env: Env, id: string) { Some(id) in env.deploys }

  /** Same pod in the same phase with the same sessions. */
  predicate Untouched(a: Rows, b: Rows, id: string) {
    && (id in a <==> id in b)
    && (id in a ==> b[id] == a[id].(cooldownUntil := b[id].cooldownUntil))
  }

  lemma {:induction false} DeployManyLeaves(e: Exec, env: Env, n: nat, id: string)
    requires !NewId(env, id)
    ensures Untouched(e.rows, DeployMany(e, env, n).rows, id)
    decreases n
  {
    if n > 0 { DeployManyLeaves(DeployOne(e, env), env, n - 1, id); }
  }

  lemma PerformLeaves(e: Exec, env: Env, a: Action, id: string)
    requires !a.Replace? && a != Terminate(id) && !NewId(env, id)
    ensures Untouched(e.rows, Perform(e, env, a).rows, id)
  {
    if a.Deploy? { DeployManyLeaves(e, env, a.count, id); }
  }

  lemma {:induction false} PerformAllLeaves(e: Exec, env: Env, actions: seq<Action>, id: string)
    requires !NewId(env, id) && forall a <- actions :: !a.Replace? && a != Terminate(id)
    ensures Untouched(e.rows, PerformAll(e, env, actions).rows, id)
    decreases |actions|
  {
    if actions != [] {
      PerformLeaves(e, env, actions[0], id);
      PerformAllLeaves(Perform(e, env, actions[0]), env, actions[1..], id);
    }
  }

  lemma SparesTheRest(marked: Rows, env: Env, id: string)
    requires RowsOk(marked) && id in marked && !IsExpired(env.now)(marked[id])
    ensures Terminate(id) !in Decision(ViewOf(marked, env))
  {
    var v := ViewOf(marked, env);
    SnapshotIsTheRows(marked);
    TerminatesOnlyIdle(v, |v.pods|);
    assert !SomeExpired(v.pods, v.now, id);
    AllReplacements(v, Terminate(id));
  }

  lemma AllReplacements(v: View, a: Action)
    requires a !in Down(v, |v.pods|) && a.Terminate?
    ensures a !in Decision(v)
  {}

  /** A tick removes only Ready, empty pods whose cooldown has run out; every other pod keeps
      its phase and sessions, and a dead one is never removed. */
  lemma TickRemovesOnlyIdle(rows: Rows, env: Env, id: string)
    requires RowsOk(rows) && id in rows && !NewId(env, id)
    requires !IsExpired(env.now)(MarkedDead(rows, env.now)[id])
    ensures Untouched(MarkedDead(rows, env.now), Ticked(rows, env), id)
  {
    var marked := MarkedDead(rows, env.now);
    var v := ViewOf(marked, env);
    MarkedOk(rows, env.now);
    TickNeverReplaces(rows, env);
    SnapshotIsTheRows(marked);
    SparesTheRest(marked, env, id);
    PerformAllLeaves(Exec(marked, 0), env, Decision(v), id);
  }

  /** While a pod boots a tick adds none. */
  lemma OneWave(rows: Rows, env: Env, booting: string, id: string)
    requires RowsOk(rows) && booting in rows && rows[booting].phase.Booting? && id !in rows
    ensures id !in Ticked(rows, env)
  {
    var marked := MarkedDead(rows, env.now);
    var v := ViewOf(marked, env);
    MarkedOk(rows, env.now);
    SnapshotIsTheRows(marked);
    assert marked[booting] in v.pods;
    BootingBlocksDeploys(v, marked[booting]);
    TickNeverReplaces(rows, env);
    NothingAdded(Exec(marked, 0), env, Decision(v), id);
  }

  lemma {:induction false} NothingAdded(e: Exec, env: Env, actions: seq<Action>, id: string)
    requires id !in e.rows && forall a <- actions :: !a.Deploy? && !a.Replace?
    ensures id !in PerformAll(e, env, actions).rows
    decreases |actions|
  {
    if actions != [] { NothingAdded(Perform(e, env, actions[0]), env, actions[1..], id); }
  }
}
