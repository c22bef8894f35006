/** The autoscaler's policy (crates/orchestrator/src/scaler.rs). The fill ratio is a real. */
module Scaler {
  import opened Seqs
  import opened Wrappers
  import opened Registry

  const PING_DEAD_AFTER: nat := 15000

  datatype View = View(pods: seq<Pod>, queueLen: nat, warmFloor: nat, scaleUpFill: real, now: nat)

  datatype Action =
    | Deploy(count: nat) | StartCooldown(id: string) | CancelCooldown(id: string)
    | Terminate(id: string) | Replace(id: string) | NoAction

  predicate Stale(p: Pod, now: nat) {
    !p.phase.Dead? && !p.phase.Booting? && now > p.lastPing + PING_DEAD_AFTER
  }

  function Count(pods: seq<Pod>, p: Pod -> bool): (n: nat)
    ensures n <= |pods|
    ensures n == 0 <==> forall x <- pods :: !p(x)
  {
    if pods == [] then 0 else Count(pods[..|pods| - 1], p) + if p(pods[|pods| - 1]) then 1 else 0
  }

  function IsLive(): Pod -> bool { (p: Pod) => !p.phase.Dead? }
  function IsServing(): Pod -> bool { (p: Pod) => p.phase.Ready? || p.phase.Booting? }
  function IsDraining(): Pod -> bool { (p: Pod) => p.phase.Draining? }
  function IsBooting(): Pod -> bool { (p: Pod) => p.phase.Booting? }
  function IsExpired(now: nat): Pod -> bool {
    (p: Pod) => p.phase.Ready? && p.fill == 0 && p.cooldownUntil.Some? && p.cooldownUntil.value <= now
  }

  function LiveCount(pods: seq<Pod>): nat { Count(pods, IsLive()) }
  function AnyBooting(pods: seq<Pod>): bool { Count(pods, IsBooting()) > 0 }

  function ReadyCap(pods: seq<Pod>): nat {
    if pods == [] then 0
    else ReadyCap(pods[..|pods| - 1]) + if pods[|pods| - 1].phase.Ready? then pods[|pods| - 1].cap else 0
  }

  function ReadyUsed(pods: seq<Pod>): nat {
    if pods == [] then 0
    else ReadyUsed(pods[..|pods| - 1]) + if pods[|pods| - 1].phase.Ready? then pods[|pods| - 1].fill else 0
  }

  function FillRatio(pods: seq<Pod>): real {
    if ReadyCap(pods) == 0 then 0.0 else ReadyUsed(pods) as real / ReadyCap(pods) as real
  }

  /** The largest cap of a Ready pod, and at least 1. */
  function LargestCap(pods: seq<Pod>): (c: nat)
    ensures c >= 1
    ensures forall p <- pods :: p.phase.Ready? ==> p.cap <= c
    ensures c == 1 || exists p <- pods :: p.phase.Ready? && p.cap == c
  {
    if pods == [] then 1
    else
      var before, p := LargestCap(pods[..|pods| - 1]), pods[|pods| - 1];
      if p.phase.Ready? && p.cap > before then p.cap else before
  }

  function CeilDiv(a: nat, b: nat): (q: nat)
    requires b > 0
    ensures q * b >= a && (a > 0 ==> q >= 1 && (q - 1) * b < a)
    decreases a
  {
    if a <= b then (if a == 0 then 0 else 1) else 1 + CeilDiv(a - b, b)
  }

  function Replacements(pods: seq<Pod>, now: nat): (r: seq<Action>)
    ensures forall a <- r :: a.Replace?
  {
    if pods == [] then []
    else
      var p := pods[|pods| - 1];
      Replacements(pods[..|pods| - 1], now) + if Stale(p, now) then [Replace(p.id)] else []
  }

  function Terminations(actions: seq<Action>): nat {
    if actions == [] then 0
    else Terminations(actions[..|actions| - 1]) + if actions[|actions| - 1].Terminate? then 1 else 0
  }

  /** What scaling down does about one pod, `pending` terminations into the pass. */
  function DownFor(p: Pod, v: View, pending: nat): seq<Action> {
    if p.phase.Ready? && p.fill == 0 then
      match p.cooldownUntil
      case None => [Action.StartCooldown(p.id)]
      case Some(expiry) =>
        if expiry <= v.now && Minus(LiveCount(v.pods), 1 + pending) >= v.warmFloor then [Terminate(p.id)] else []
    else if p.phase.Ready? && p.cooldownUntil.Some? then [CancelCooldown(p.id)]
    else []
  }

  function Down(v: View, k: nat): seq<Action>
    requires k <= |v.pods|
  {
    if k == 0 then [] else DownNext(Down(v, k - 1), v.pods[k - 1], v, Pending(v, k - 1))
  }

  function DownNext(before: seq<Action>, p: Pod, v: View, pending: nat): seq<Action> {
    before + DownFor(p, v, pending)
  }

  /** The pod has expired and the floor leaves room for one termination more. */
  predicate Frees(p: Pod, v: View, pending: nat) {
    IsExpired(v.now)(p) && Minus(LiveCount(v.pods), 1 + pending) >= v.warmFloor
  }

  /** Terminations decided on for the first `k` pods. */
  function Pending(v: View, k: nat): nat
    requires k <= |v.pods|
  {
    if k == 0 then 0 else Pending(v, k - 1) + if Frees(v.pods[k - 1], v, Pending(v, k - 1)) then 1 else 0
  }

  function ScaleDown(v: View): seq<Action> {
    var down := Down(v, |v.pods|);
    if down == [] then [NoAction] else down
  }

  /** How many pods to deploy, if any. */
  function Wanted(v: View): Option<nat> {
    if AnyBooting(v.pods) then None
    else if LiveCount(v.pods) < v.warmFloor then Some(v.warmFloor - LiveCount(v.pods))
    else if ReadyCap(v.pods) > 0 && FillRatio(v.pods) >= v.scaleUpFill then Some(1)
    else if v.queueLen > 0 then Some(CeilDiv(v.queueLen, LargestCap(v.pods)))
    else None
  }

  function Decision(v: View): seq<Action> {
    if Replacements(v.pods, v.now) != [] then Replacements(v.pods, v.now)
    else match Wanted(v) case Some(n) => [Deploy(n)] case None => ScaleDown(v)
  }

  // ---------------------------------------------------------------- the loops

  method Decide(v: View) returns (actions: seq<Action>)
    ensures actions == Decision(v)
  {
    actions := [];
    for i := 0 to |v.pods|
      invariant actions == Replacements(v.pods[..i], v.now)
    {
      assert v.pods[..i + 1][..i] == v.pods[..i];
      if Stale(v.pods[i], v.now) { actions := actions + [Replace(v.pods[i].id)]; }
    }
    assert v.pods[..|v.pods|] == v.pods;
    if actions != [] { return; }
    var live, booting := LiveCount(v.pods), AnyBooting(v.pods);
    if live < v.warmFloor && !booting { return [Deploy(v.warmFloor - live)]; }
    var cap, ratio := ReadyCap(v.pods), FillRatio(v.pods);
    if cap > 0 && ratio >= v.scaleUpFill && !booting { return [Deploy(1)]; }
    if v.queueLen > 0 && !booting { return [Deploy(CeilDiv(v.queueLen, LargestCap(v.pods)))]; }
    actions := WalkDown(v);
    if actions == [] { actions := [NoAction]; }
  }

  method WalkDown(v: View) returns (actions: seq<Action>)
    ensures actions == Down(v, |v.pods|)
  {
    actions := [];
    var pending := 0;
    for i := 0 to |v.pods|
      invariant actions == Down(v, i) && pending == Pending(v, i)
    {
      var more := ForOne(v.pods[i], v, pending);
      if |more| == 1 && more[0].Terminate? { pending := pending + 1; }
      actions := actions + more;
    }
  }

  method ForOne(p: Pod, v: View, pending: nat) returns (more: seq<Action>)
    ensures more == DownFor(p, v, pending)
    ensures |more| == 1 && more[0].Terminate? <==> Frees(p, v, pending)
  {
    more := [];
    if p.phase.Ready? && p.fill == 0 {
      match p.cooldownUntil {
        case Some(expiry) =>
          if expiry <= v.now {
            var liveAfter := Minus(LiveCount(v.pods), 1 + pending);
            if liveAfter >= v.warmFloor { more := [Terminate(p.id)]; }
          }
        case None => more := [Action.StartCooldown(p.id)];
      }
    } else if p.phase.Ready? && p.fill > 0 && p.cooldownUntil.Some? {
      more := [CancelCooldown(p.id)];
    }
  }

  // ---------------------------------------------------------------- what a decision is

  predicate IsDown(a: Action) { a.StartCooldown? || a.CancelCooldown? || a.Terminate? || a.NoAction? }

  lemma {:induction false} DownIsDown(v: View, k: nat)
    requires k <= |v.pods|
    ensures forall a <- Down(v, k) :: IsDown(a)
  {
    if k > 0 {
      DownIsDown(v, k - 1);
      NextIsDown(Down(v, k - 1), v.pods[k - 1], v, Pending(v, k - 1));
    }
  }

  lemma NextIsDown(before: seq<Action>, p: Pod, v: View, pending: nat)
    requires forall a <- before :: IsDown(a)
    ensures forall a <- DownNext(before, p, v, pending) :: IsDown(a)
  {}

  /** A decision replaces stale pods, or deploys once and only when nothing boots, or scales
      down; it never mixes them. */
  lemma OneKind(v: View)
    ensures var d := Decision(v);
      || (d != [] && forall a <- d :: a.Replace?)
      || (|d| == 1 && d[0].Deploy? && d[0].count >= 1 && forall p <- v.pods :: !p.phase.Booting?)
      || (d != [] && forall a <- d :: IsDown(a))
  {
    DownIsDown(v, |v.pods|);
    if Wanted(v).Some? { assert forall p <- v.pods :: !IsBooting()(p); }
  }

  predicate Filled(v: View) { ReadyCap(v.pods) > 0 && FillRatio(v.pods) >= v.scaleUpFill }

  /** Something calls for another pod: the floor, the fill of the Ready pods, or the queue. */
  predicate Needed(v: View) { LiveCount(v.pods) < v.warmFloor || Filled(v) || v.queueLen > 0 }

  /** As many pods as hold the queue, and none to spare. */
  predicate HoldsQueue(n: nat, cap: nat, queueLen: nat) {
    n >= 1 && n * cap >= queueLen && (n - 1) * cap < queueLen
  }

  lemma CeilHoldsQueue(queueLen: nat, cap: nat)
    requires cap > 0 && queueLen > 0
    ensures HoldsQueue(CeilDiv(queueLen, cap), cap, queueLen)
  {}

  /** It fills the floor, or adds one, or holds the queue. */
  predicate RightCount(v: View, n: nat) {
    if LiveCount(v.pods) < v.warmFloor then n >= 1 && LiveCount(v.pods) + n == v.warmFloor
    else if Filled(v) then n == 1
    else HoldsQueue(n, LargestCap(v.pods), v.queueLen)
  }

  lemma WantedExactly(v: View)
    ensures Wanted(v).Some? <==> Needed(v) && !AnyBooting(v.pods)
    ensures Wanted(v).Some? ==> RightCount(v, Wanted(v).value)
  {
    if v.queueLen > 0 { CeilHoldsQueue(v.queueLen, LargestCap(v.pods)); }
  }

  lemma DecisionDeploys(v: View, n: nat)
    requires Replacements(v.pods, v.now) == []
    ensures Decision(v) == [Deploy(n)] <==> Wanted(v) == Some(n)
  {
    DownIsDown(v, |v.pods|);
    assert forall a <- ScaleDown(v) :: IsDown(a);
    assert Deploy(n) in [Deploy(n)];
    assert forall m :: [Deploy(m)] == [Deploy(n)] ==> [Deploy(m)][0] == Deploy(n);
  }

  /** With no stale pod a deployment happens exactly when one is needed and nothing boots, and
      then it is of the right number of pods. */
  lemma DeploysExactly(v: View, n: nat)
    requires forall p <- v.pods :: !Stale(p, v.now)
    ensures Decision(v) == [Deploy(n)] ==> Needed(v) && !AnyBooting(v.pods) && RightCount(v, n)
    ensures Needed(v) && !AnyBooting(v.pods) ==> exists m :: Decision(v) == [Deploy(m)]
  {
    NoReplacements(v.pods, v.now);
    WantedExactly(v);
    DecisionDeploys(v, n);
    if Wanted(v).Some? { DecisionDeploys(v, Wanted(v).value); }
  }

  lemma {:induction false} NoReplacements(pods: seq<Pod>, now: nat)
    requires forall p <- pods :: !Stale(p, now)
    ensures Replacements(pods, now) == []
  {
    if pods != [] { NoReplacements(pods[..|pods| - 1], now); }
  }

  predicate StartsToCool(p: Pod, id: string) {
    p.id == id && p.phase.Ready? && p.fill == 0 && p.cooldownUntil.None?
  }

  predicate ServesAgain(p: Pod, id: string) {
    p.id == id && p.phase.Ready? && p.fill > 0 && p.cooldownUntil.Some?
  }

  predicate SomeStarts(pods: seq<Pod>, id: string) { exists p <- pods :: StartsToCool(p, id) }

  predicate SomeServes(pods: seq<Pod>, id: string) { exists p <- pods :: ServesAgain(p, id) }

  lemma SomeSnoc(pods: seq<Pod>, p: Pod, id: string)
    ensures SomeStarts(pods + [p], id) <==> SomeStarts(pods, id) || StartsToCool(p, id)
    ensures SomeServes(pods + [p], id) <==> SomeServes(pods, id) || ServesAgain(p, id)
  {
    assert p in pods + [p] && forall x <- pods :: x in pods + [p];
  }

  /** Scaling down starts a cooldown for exactly the Ready, empty pods without one, and cancels
      exactly those of Ready pods that serve again. */
  lemma {:induction false} CooldownsExactly(v: View, k: nat, id: string)
    requires k <= |v.pods|
    ensures Action.StartCooldown(id) in Down(v, k) <==> SomeStarts(v.pods[..k], id)
    ensures CancelCooldown(id) in Down(v, k) <==> SomeServes(v.pods[..k], id)
  {
    if k > 0 {
      CooldownsExactly(v, k - 1, id);
      assert v.pods[..k] == v.pods[..k - 1] + [v.pods[k - 1]];
      OneMoreCooldown(Down(v, k - 1), v.pods[..k - 1], v.pods[k - 1], v, Pending(v, k - 1), id);
    }
  }

  lemma OneMoreCooldown(before: seq<Action>, pods: seq<Pod>, p: Pod, v: View, pending: nat, id: string)
    requires Action.StartCooldown(id) in before <==> SomeStarts(pods, id)
    requires CancelCooldown(id) in before <==> SomeServes(pods, id)
    ensures Action.StartCooldown(id) in DownNext(before, p, v, pending) <==> SomeStarts(pods + [p], id)
    ensures CancelCooldown(id) in DownNext(before, p, v, pending) <==> SomeServes(pods + [p], id)
  {
    SomeSnoc(pods, p, id);
    CooldownStep(DownNext(before, p, v, pending), before, p, v, pending, id);
  }

  lemma CooldownStep(after: seq<Action>, before: seq<Action>, p: Pod, v: View, pending: nat, id: string)
    requires after == before + DownFor(p, v, pending)
    ensures Action.StartCooldown(id) in after <==> Action.StartCooldown(id) in before || StartsToCool(p, id)
    ensures CancelCooldown(id) in after <==> CancelCooldown(id) in before || ServesAgain(p, id)
  {
    var more := DownFor(p, v, pending);
    CooldownFor(p, v, pending, id);
    InEither(before, more, Action.StartCooldown(id));
    InEither(before, more, CancelCooldown(id));
  }

  lemma InEither(a: seq<Action>, b: seq<Action>, x: Action)
    ensures x in a + b <==> x in a || x in b
  {}

  lemma CooldownFor(p: Pod, v: View, pending: nat, id: string)
    ensures Action.StartCooldown(id) in DownFor(p, v, pending) <==> StartsToCool(p, id)
    ensures CancelCooldown(id) in DownFor(p, v, pending) <==> ServesAgain(p, id)
  {}

  /** Rule 1 fires exactly for stale pods, and nothing else happens while there is one. */
  lemma {:induction false} ReplacesTheStale(pods: seq<Pod>, now: nat, id: string)
    ensures Replace(id) in Replacements(pods, now) <==> exists p <- pods :: Stale(p, now) && p.id == id
  {
    if pods != [] {
      var n := |pods| - 1;
      ReplacesTheStale(pods[..n], now, id);
      assert pods == pods[..n] + [pods[n]];
    }
  }

  lemma {:induction false} TerminationsConcat(a: seq<Action>, b: seq<Action>)
    ensures Terminations(a + b) == Terminations(a) + Terminations(b)
  {
    if b == [] {
      assert a + b == a;
    } else {
      assert (a + b)[..|a + b| - 1] == a + b[..|b| - 1];
      TerminationsConcat(a, b[..|b| - 1]);
    }
  }

  lemma {:induction false} CountWithin(pods: seq<Pod>, p: Pod -> bool, q: Pod -> bool)
    requires forall x <- pods :: p(x) ==> q(x)
    ensures Count(pods, p) <= Count(pods, q)
  {
    if pods != [] { CountWithin(pods[..|pods| - 1], p, q); }
  }

  lemma {:induction false} CountPrefix(pods: seq<Pod>, p: Pod -> bool, k: nat)
    requires k <= |pods|
    ensures Count(pods[..k], p) <= Count(pods, p)
    ensures k < |pods| ==> Count(pods[..k + 1], p) == Count(pods[..k], p) + if p(pods[k]) then 1 else 0
    decreases |pods| - k
  {
    if k < |pods| {
      assert pods[..k + 1][..k] == pods[..k];
      CountPrefix(pods, p, k + 1);
    } else {
      assert pods[..k] == pods;
    }
  }

  /** How many expired pods scaling down terminates: as many as the floor leaves room for. */
  lemma {:induction false} TerminatesDownToFloor(v: View, k: nat)
    requires k <= |v.pods|
    ensures Terminations(Down(v, k)) == Min(Expired(v, k), Minus(LiveCount(v.pods), v.warmFloor))
  {
    PendingToFloor(v, k);
    TerminatesPending(v, k);
  }

  lemma {:induction false} PendingToFloor(v: View, k: nat)
    requires k <= |v.pods|
    ensures Pending(v, k) == Min(Expired(v, k), Minus(LiveCount(v.pods), v.warmFloor))
  {
    if k > 0 {
      PendingToFloor(v, k - 1);
      ExpiredAreLive(v, k);
      OneMoreTermination(Expired(v, k - 1), LiveCount(v.pods), v.warmFloor, Pending(v, k - 1),
        IsExpired(v.now)(v.pods[k - 1]));
    }
  }

  lemma {:induction false} TerminatesPending(v: View, k: nat)
    requires k <= |v.pods|
    ensures Terminations(Down(v, k)) == Pending(v, k)
  {
    if k > 0 {
      TerminatesPending(v, k - 1);
      NextTerminations(v, Down(v, k - 1), v.pods[k - 1], Pending(v, k - 1));
    }
  }

  /** Expired pods among the first `k`. */
  function Expired(v: View, k: nat): nat
    requires k <= |v.pods|
  {
    if k == 0 then 0 else Expired(v, k - 1) + if IsExpired(v.now)(v.pods[k - 1]) then 1 else 0
  }

  lemma {:induction false} ExpiredIsCount(v: View, k: nat)
    requires k <= |v.pods|
    ensures Expired(v, k) == Count(v.pods[..k], IsExpired(v.now))
  {
    if k > 0 {
      ExpiredIsCount(v, k - 1);
      CountPrefix(v.pods, IsExpired(v.now), k - 1);
    }
  }

  lemma NextTerminations(v: View, before: seq<Action>, p: Pod, pending: nat)
    ensures Terminations(DownNext(before, p, v, pending))
      == Terminations(before) + if Frees(p, v, pending) then 1 else 0
  {
    TerminationsConcat(before, DownFor(p, v, pending));
    TerminationsFor(p, v, pending);
  }

  lemma OneMoreTermination(expired: nat, live: nat, floor: nat, done: nat, more: bool)
    requires done == Min(expired, Minus(live, floor)) && expired + (if more then 1 else 0) <= live
    ensures done + (if more && Minus(live, 1 + done) >= floor then 1 else 0)
      == Min(expired + if more then 1 else 0, Minus(live, floor))
  {}

  lemma TerminationsFor(p: Pod, v: View, pending: nat)
    ensures Terminations(DownFor(p, v, pending)) == if Frees(p, v, pending) then 1 else 0
  {
    assert forall a: Action :: [a][..0] == [];
  }

  lemma ExpiredAreLive(v: View, k: nat)
    requires k <= |v.pods|
    ensures Expired(v, k) <= LiveCount(v.pods)
  {
    ExpiredIsCount(v, k);
    CountWithin(v.pods[..k], IsExpired(v.now), IsLive());
    CountPrefix(v.pods, IsLive(), k);
  }

  predicate SomeExpired(pods: seq<Pod>, now: nat, id: string) {
    exists p <- pods :: p.id == id && IsExpired(now)(p)
  }

  lemma ExpiredAmong(pods: seq<Pod>, i: nat, now: nat, id: string)
    requires i < |pods| && pods[i].id == id && IsExpired(now)(pods[i])
    ensures SomeExpired(pods, now, id)
  {
    assert pods[i] in pods;
  }

  predicate OnlyExpired(actions: seq<Action>, pods: seq<Pod>, now: nat) {
    forall a <- actions :: a.Terminate? ==> SomeExpired(pods, now, a.id)
  }

  /** Only Ready, empty pods whose cooldown has run out are terminated. */
  lemma {:induction false} TerminatesOnlyIdle(v: View, k: nat)
    requires k <= |v.pods|
    ensures OnlyExpired(Down(v, k), v.pods, v.now)
  {
    if k > 0 {
      TerminatesOnlyIdle(v, k - 1);
      NextOnlyExpired(Down(v, k - 1), v, k - 1, Pending(v, k - 1));
    }
  }

  lemma NextOnlyExpired(before: seq<Action>, v: View, i: nat, pending: nat)
    requires i < |v.pods| && OnlyExpired(before, v.pods, v.now)
    ensures OnlyExpired(DownNext(before, v.pods[i], v, pending), v.pods, v.now)
  {
    var p := v.pods[i];
    forall a | a in DownFor(p, v, pending) && a.Terminate? ensures SomeExpired(v.pods, v.now, a.id) {
      DownForIdle(p, v, pending, a.id);
      ExpiredAmong(v.pods, i, v.now, a.id);
    }
  }

  lemma DownForIdle(p: Pod, v: View, pending: nat, id: string)
    requires Terminate(id) in DownFor(p, v, pending)
    ensures p.id == id && IsExpired(v.now)(p)
  {}

  lemma NoTerminationsOtherwise(actions: seq<Action>)
    requires forall a <- actions :: !a.Terminate?
    ensures Terminations(actions) == 0
  {}

  /** The floor: a decision terminates at most what the live pods exceed the floor by. */
  lemma FloorHolds(v: View)
    ensures LiveCount(v.pods) - Terminations(Decision(v)) >= Min(LiveCount(v.pods), v.warmFloor)
  {
    TerminatesDownToFloor(v, |v.pods|);
    OnlyDownTerminates(v);
  }

  lemma OnlyDownTerminates(v: View)
    ensures Decision(v) == Down(v, |v.pods|) || Terminations(Decision(v)) == 0
  {
    if Replacements(v.pods, v.now) != [] {
      NoTerminationsOtherwise(Replacements(v.pods, v.now));
    } else if Wanted(v).Some? {
      NoTerminationsOtherwise([Deploy(Wanted(v).value)]);
    } else {
      NoTerminationsOtherwise([NoAction]);
    }
  }

  // ---------------------------------------------------------------- draining pods count

  lemma {:induction false} LiveIsServingOrDraining(pods: seq<Pod>)
    ensures Count(pods, IsLive()) == Count(pods, IsServing()) + Count(pods, IsDraining())
  {
    if pods != [] { LiveIsServingOrDraining(pods[..|pods| - 1]); }
  }

  /** The policy's text promises the floor for Ready and Booting pods, but Draining pods are
      counted too. A scale-down keeps that promise exactly when nothing drains, or the fleet is
      no larger than the floor, or no more pods have expired than serve beyond the floor. */
  lemma ServingFloorExactly(v: View)
    requires Decision(v) == ScaleDown(v)
    ensures var serving := Count(v.pods, IsServing());
      serving - Terminations(Decision(v)) >= Min(serving, v.warmFloor)
      <==> (|| Count(v.pods, IsDraining()) == 0
            || LiveCount(v.pods) <= v.warmFloor
            || Count(v.pods, IsExpired(v.now)) <= Minus(serving, v.warmFloor))
  {
    TerminatesDownToFloor(v, |v.pods|);
    assert v.pods[..|v.pods|] == v.pods;
    ExpiredIsCount(v, |v.pods|);
    LiveIsServingOrDraining(v.pods);
    CountWithin(v.pods, IsExpired(v.now), IsServing());
    NoTerminationsOtherwise([NoAction]);
  }

  /** One idle pod whose cooldown has run out, one that drains, and a floor of one. */
  function DrainingFleet(now: nat): View {
    View([Pod("a", "", 1, 0, now, Ready, Some(now), now), Pod("b", "", 1, 1, now, Draining, None, now)],
      0, 1, 1.0, now)
  }

  /** It loses its only pod that serves. */
  lemma ServingFloorLost(now: nat, v: View)
    requires v == DrainingFleet(now)
    ensures Decision(v) == ScaleDown(v) && Count(v.pods, IsServing()) == 1 && v.warmFloor == 1
    ensures Terminations(Decision(v)) == 1
  {
    var p, q := v.pods[0], v.pods[1];
    TwoPods(v.pods, p, q);
    assert forall x <- v.pods :: !Stale(x, now);
    NoReplacements(v.pods, now);
    assert Wanted(v) == None;
    TerminatesDownToFloor(v, 2);
    ExpiredIsCount(v, 2);
    assert v.pods[..2] == v.pods;
    NoTerminationsOtherwise([NoAction]);
  }

  lemma TwoPods(pods: seq<Pod>, p: Pod, q: Pod)
    requires pods == [p, q]
    ensures forall f :: Count(pods, f) == (if f(p) then 1 else 0) + (if f(q) then 1 else 0)
    ensures ReadyCap(pods) == (if p.phase.Ready? then p.cap else 0) + (if q.phase.Ready? then q.cap else 0)
    ensures ReadyUsed(pods) == (if p.phase.Ready? then p.fill else 0) + (if q.phase.Ready? then q.fill else 0)
  {
    assert pods[..1] == [p] && [p][..0] == [];
    forall f: Pod -> bool
      ensures Count(pods, f) == (if f(p) then 1 else 0) + (if f(q) then 1 else 0)
    {
      assert Count([p][..0], f) == 0 && Count([p], f) == if f(p) then 1 else 0;
    }
    assert ReadyCap([p]) == if p.phase.Ready? then p.cap else 0;
    assert ReadyUsed([p]) == if p.phase.Ready? then p.fill else 0;
  }

  /** A pod that never finishes booting stops every deployment. */
  lemma BootingBlocksDeploys(v: View, p: Pod)
    requires p in v.pods && p.phase.Booting?
    ensures forall a <- Decision(v) :: !a.Deploy?
  {
    OneKind(v);
  }
}
