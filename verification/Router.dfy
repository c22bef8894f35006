/** Least-loaded choice (crates/orchestrator/src/router.rs) and what it gives over whole runs,
    choice and assignment taken as one step. */
module Router {
  import opened Seqs
  import opened Wrappers
  import opened Registry
  import Json

  predicate Eligible(p: Pod, cap: nat, channels: set<string>) {
    p.phase.Ready? && p.fill < Min(p.cap, cap) && p.id in channels
  }

  /** By fill, then by id. */
  predicate Before(p: Pod, q: Pod) { p.fill < q.fill || (p.fill == q.fill && Json.Leq(p.id, q.id)) }

  /** The first least of the eligible pods of a snapshot. */
  function PickFrom(pods: seq<Pod>, cap: nat, channels: set<string>): Option<Pod> {
    if pods == [] then None
    else
      var rest := PickFrom(pods[1..], cap, channels);
      if !Eligible(pods[0], cap, channels) then rest
      else if rest.None? || Before(pods[0], rest.value) then Some(pods[0])
      else rest
  }

  function Pick(rows: Rows, cap: nat, channels: set<string>): Option<Pod> { PickFrom(Snapshot(rows), cap, channels) }

  lemma BeforeTotal(p: Pod, q: Pod)
    ensures Before(p, q) || Before(q, p)
  {
    Json.LeqTotal(p.id, q.id);
  }

  lemma BeforeTransitive(p: Pod, q: Pod, r: Pod)
    requires Before(p, q) && Before(q, r)
    ensures Before(p, r)
  {
    if p.fill == r.fill { Json.LeqTransitive(p.id, q.id, r.id); }
  }

  ghost predicate IsLeast(r: Option<Pod>, pods: seq<Pod>, cap: nat, channels: set<string>) {
    match r
    case None => forall p <- pods :: !Eligible(p, cap, channels)
    case Some(least) =>
      && least in pods && Eligible(least, cap, channels)
      && forall p <- pods :: Eligible(p, cap, channels) ==> Before(least, p)
  }

  lemma {:induction false} PickFromIsLeast(pods: seq<Pod>, cap: nat, channels: set<string>)
    ensures IsLeast(PickFrom(pods, cap, channels), pods, cap, channels)
  {
    if pods != [] {
      var first, rest := pods[0], PickFrom(pods[1..], cap, channels);
      PickFromIsLeast(pods[1..], cap, channels);
      BeforeTotal(first, first);
      if Eligible(first, cap, channels) && rest.Some? {
        BeforeTotal(first, rest.value);
        if Before(first, rest.value) {
          forall p | p in pods[1..] && Eligible(p, cap, channels) ensures Before(first, p) {
            BeforeTransitive(first, rest.value, p);
          }
        }
      }
    }
  }

  /** Pick finds the one least (fill, id) among the Ready pods below both caps with a live
      channel, and nothing only when there is none. */
  lemma PickIsLeast(rows: Rows, cap: nat, channels: set<string>)
    requires RowsOk(rows)
    ensures var r := Pick(rows, cap, channels);
      && (r.None? <==> forall id <- rows :: !Eligible(rows[id], cap, channels))
      && (r.Some? ==>
        && r.value.id in rows && rows[r.value.id] == r.value && Eligible(r.value, cap, channels)
        && forall id <- rows :: Eligible(rows[id], cap, channels) ==> Before(r.value, rows[id]))
  {
    SnapshotIsTheRows(rows);
    PickFromIsLeast(Snapshot(rows), cap, channels);
    forall id | id in rows ensures rows[id] in Snapshot(rows) {}
  }

  /** There is only one least pod, so the choice is the one any search would make. */
  lemma PickIsTheLeast(rows: Rows, cap: nat, channels: set<string>, p: Pod)
    requires RowsOk(rows) && p.id in rows && rows[p.id] == p && Eligible(p, cap, channels)
    requires forall id <- rows :: Eligible(rows[id], cap, channels) ==> Before(p, rows[id])
    ensures Pick(rows, cap, channels) == Some(p)
  {
    PickIsLeast(rows, cap, channels);
    var q := Pick(rows, cap, channels).value;
    assert Before(p, rows[q.id]) && Before(q, rows[p.id]);
    SameId(p, q);
  }

  lemma SameId(p: Pod, q: Pod)
    requires Before(p, q) && Before(q, p)
    ensures p.id == q.id
  {
    Json.LeqAntisymmetric(p.id, q.id);
  }

  // ---------------------------------------------------------------- sessions over a run

  /** What happens to the fleet. A place is picked and taken in one step; a session ends only
      where one runs; a pod that reports its fill reports what runs on it. */
  datatype Event =
    | Place(cap: nat, channels: set<string>)
    | End(id: string)
    | Other(op: Op)

  /** The rows, and how many sessions were placed on each pod and have not ended. */
  datatype Fleet = Fleet(rows: Rows, running: map<string, nat>)

  /** What the registry makes of the reported fill is what runs there. */
  predicate Truthful(f: Fleet, id: string, fill: nat) {
    id in f.rows && id in f.running ==> Min(fill, f.rows[id].cap) == f.running[id]
  }

  predicate Allowed(f: Fleet, e: Event) {
    match e
    case Place(_, _) => true
    case End(id) => id in f.running && f.running[id] > 0
    case Other(op) => !op.Assign? && !op.Release? && (op.Ping? ==> Truthful(f, op.id, op.fill))
  }

  function Placed(f: Fleet, picked: Option<Pod>): Fleet {
    match picked
    case None => f
    case Some(p) =>
      Fleet(Apply(f.rows, Assign(p.id)),
        if p.id in f.running then f.running[p.id := f.running[p.id] + 1] else f.running)
  }

  function Next(f: Fleet, e: Event): Fleet {
    match e
    case Place(cap, channels) =>
      Placed(f, Pick(f.rows, cap, channels))
    case End(id) =>
      Fleet(Apply(f.rows, Release(id)),
        if id in f.running && f.running[id] > 0 then f.running[id := f.running[id] - 1] else f.running)
    case Other(op) =>
      Fleet(Apply(f.rows, op),
        if op.Register? then f.running[op.id := 0]
        else if op.Remove? then f.running - {op.id} else f.running)
  }

  /** Fill is exactly the sessions running, never above the pod's cap. */
  predicate Counted(f: Fleet) {
    && RowsOk(f.rows) && f.rows.Keys == f.running.Keys
    && forall id <- f.rows :: f.rows[id].fill == f.running[id]
  }

  lemma PickedHasRoom(rows: Rows, cap: nat, channels: set<string>, r: Option<Pod>)
    requires RowsOk(rows) && r == Pick(rows, cap, channels) && r.Some?
    ensures r.value.id in rows && rows[r.value.id] == r.value && Eligible(r.value, cap, channels)
    ensures forall id <- rows :: Eligible(rows[id], cap, channels) ==> r.value.fill <= rows[id].fill
  {
    PickIsLeast(rows, cap, channels);
  }

  lemma PlacedCounts(f: Fleet, p: Pod)
    requires Counted(f) && p.id in f.rows && f.rows[p.id].fill < f.rows[p.id].cap
    ensures Counted(Placed(f, Some(p)))
    ensures Placed(f, Some(p)).rows[p.id].fill == f.rows[p.id].fill + 1
  {}

  lemma PlaceCounts(f: Fleet, cap: nat, channels: set<string>)
    requires Counted(f)
    ensures Counted(Next(f, Place(cap, channels)))
    ensures var picked := Pick(f.rows, cap, channels); picked.Some? ==>
      && picked.value.id in f.rows
      && Next(f, Place(cap, channels)).rows[picked.value.id].fill == f.rows[picked.value.id].fill + 1
  {
    var picked := Pick(f.rows, cap, channels);
    if picked.Some? {
      PickedRoom(f.rows, cap, channels, picked.value);
      PlacedCounts(f, picked.value);
    }
  }

  lemma PickedRoom(rows: Rows, cap: nat, channels: set<string>, p: Pod)
    requires RowsOk(rows) && Pick(rows, cap, channels) == Some(p)
    ensures p.id in rows && rows[p.id] == p && p.fill < p.cap
  {
    PickedHasRoom(rows, cap, channels, Some(p));
  }

  lemma OtherCounts(f: Fleet, op: Op)
    requires Counted(f) && Allowed(f, Other(op))
    ensures Counted(Next(f, Other(op)))
  {}

  /** A ping keeps the count exactly when it is truthful. */
  lemma PingCountsExactly(f: Fleet, id: string, fill: nat, now: nat)
    requires Counted(f)
    ensures Counted(Next(f, Other(Ping(id, fill, now)))) <==> Truthful(f, id, fill)
  {
    var t := Next(f, Other(Ping(id, fill, now)));
    if id in f.rows { assert t.rows[id].fill == Min(fill, f.rows[id].cap); }
  }

  lemma EndCounts(f: Fleet, id: string)
    requires Counted(f) && Allowed(f, End(id))
    ensures Counted(Next(f, End(id)))
    ensures Next(f, End(id)).rows[id].fill == f.rows[id].fill - 1
  {}

  predicate AllowedRun(f: Fleet, run: seq<Event>)
    decreases |run|
  {
    run == [] || (Allowed(f, run[0]) && AllowedRun(Next(f, run[0]), run[1..]))
  }

  function After(f: Fleet, run: seq<Event>): Fleet
    decreases |run|
  {
    if run == [] then f else After(Next(f, run[0]), run[1..])
  }

  /** Over every run fill counts placements less ends exactly: neither clamp is ever reached. */
  lemma {:induction false} FillIsExact(f: Fleet, run: seq<Event>)
    requires Counted(f) && AllowedRun(f, run)
    ensures Counted(After(f, run))
    decreases |run|
  {
    if run != [] {
      match run[0] {
        case Place(cap, channels) => PlaceCounts(f, cap, channels);
        case End(id) => EndCounts(f, id);
        case Other(op) => OtherCounts(f, op);
      }
      FillIsExact(Next(f, run[0]), run[1..]);
    }
  }

  // ---------------------------------------------------------------- balance

  predicate Serving(p: Pod, channels: set<string>) { p.phase.Ready? && p.id in channels }

  /** Pods that serve differ by at most one session. */
  predicate Balanced(rows: Rows, channels: set<string>) {
    forall a, b | a in rows && b in rows && Serving(rows[a], channels) && Serving(rows[b], channels) ::
      rows[a].fill <= rows[b].fill + 1
  }

  /** Placement among pods of one cap keeps the fleet balanced. */
  lemma PlaceKeepsBalance(rows: Rows, channels: set<string>, cap: nat, limit: nat, p: Pod)
    requires RowsOk(rows) && Balanced(rows, channels) && limit >= cap
    requires forall id <- rows :: rows[id].cap == cap
    requires Pick(rows, limit, channels) == Some(p)
    ensures Balanced(Apply(rows, Assign(p.id)), channels)
  {
    PickedHasRoom(rows, limit, channels, Some(p));
    PickedIsLowest(rows, channels, cap, limit, p);
    OneMoreKeepsBalance(rows, channels, cap, p.id);
  }

  lemma PickedIsLowest(rows: Rows, channels: set<string>, cap: nat, limit: nat, p: Pod)
    requires RowsOk(rows) && limit >= cap && forall id <- rows :: rows[id].cap == cap
    requires forall id <- rows :: Eligible(rows[id], limit, channels) ==> p.fill <= rows[id].fill
    ensures forall x <- rows :: Serving(rows[x], channels) && rows[x].fill < cap ==> p.fill <= rows[x].fill
  {
    forall x | x in rows && Serving(rows[x], channels) && rows[x].fill < cap ensures p.fill <= rows[x].fill {
      assert Eligible(rows[x], limit, channels);
    }
  }

  lemma OneMoreKeepsBalance(rows: Rows, channels: set<string>, cap: nat, id: string)
    requires RowsOk(rows) && Balanced(rows, channels) && id in rows && Serving(rows[id], channels)
    requires forall x <- rows :: rows[x].cap == cap
    requires rows[id].fill < cap
    requires forall x <- rows :: Serving(rows[x], channels) && rows[x].fill < cap ==> rows[id].fill <= rows[x].fill
    ensures Balanced(Apply(rows, Assign(id)), channels)
  {
    var after := Apply(rows, Assign(id));
    forall a, b | a in after && b in after && Serving(after[a], channels) && Serving(after[b], channels)
      ensures after[a].fill <= after[b].fill + 1
    {
      assert Serving(rows[a], channels) && Serving(rows[b], channels);
    }
  }
}
