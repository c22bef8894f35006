/** The turn-taking machine (pod/vihs_pod/turn.py) on every trace of frames and resets. Seconds
    are reals. */
module Turn {
  import opened Wrappers

  datatype State = Idle | UserSpeaking | EndpointPending | Responding
  datatype Action = OpenStt | CountNearMiss | Endpoint | Abort

  /** One voice-activity frame with the clock's reading, or a forced reset. */
  datatype Input = Vad(speech: bool, dur: real, terminal: bool, now: real) | Reset

  datatype Config = Config(tSil: real, tFast: real, bMin: real)

  datatype Fsm = Fsm(state: State, deadline: Option<real>, voiced: real)

  const Initial: Fsm := Fsm(Idle, None, 0.0)

  function Silence(cfg: Config, terminal: bool): real { if terminal then cfg.tFast else cfg.tSil }

  function Next(cfg: Config, m: Fsm, x: Input): (Fsm, seq<Action>) {
    if x.Reset? then (Initial, [])
    else
      match m.state
      case Idle => if x.speech then (m.(state := UserSpeaking), [OpenStt]) else (m, [])
      case UserSpeaking =>
        if x.speech then (m, [])
        else (m.(state := EndpointPending, deadline := Some(x.now + Silence(cfg, x.terminal))), [])
      case EndpointPending =>
        if x.speech then (m.(state := UserSpeaking, deadline := None), [CountNearMiss])
        else if m.deadline.Some? && x.now >= m.deadline.value then
          (m.(state := Responding, deadline := None), [Endpoint])
        else (m, [])
      case Responding =>
        if !x.speech then (m.(voiced := 0.0), [])
        else if m.voiced + x.dur >= cfg.bMin then (m.(state := UserSpeaking, voiced := 0.0), [Abort, OpenStt])
        else (m.(voiced := m.voiced + x.dur), [])
  }

  class TurnFsm {
    const cfg: Config
    var state: State
    var deadline: Option<real>
    var voiced: real

    constructor (cfg: Config)
      ensures this.cfg == cfg && View() == Initial
    {
      this.cfg := cfg;
      state, deadline, voiced := Idle, None, 0.0;
    }

    function View(): Fsm reads this { Fsm(state, deadline, voiced) }

    method OnVad(speech: bool, dur: real, terminal: bool, now: real) returns (actions: seq<Action>)
      modifies this
      ensures (View(), actions) == Next(cfg, old(View()), Vad(speech, dur, terminal, now))
    {
      if state.Idle? && speech {
        state := UserSpeaking;
        return [OpenStt];
      }
      if state.UserSpeaking? && !speech {
        state := EndpointPending;
        deadline := Some(now + if terminal then cfg.tFast else cfg.tSil);
        return [];
      }
      if state.EndpointPending? {
        if speech {
          state, deadline := UserSpeaking, None;
          return [CountNearMiss];
        }
        if deadline.Some? && now >= deadline.value {
          state, deadline := Responding, None;
          return [Endpoint];
        }
        return [];
      }
      if state.Responding? && speech {
        voiced := voiced + dur;
        if voiced >= cfg.bMin {
          state, voiced := UserSpeaking, 0.0;
          return [Abort, OpenStt];
        }
        return [];
      }
      if state.Responding? && !speech { voiced := 0.0; }
      return [];
    }

    method ForceReset()
      modifies this
      ensures View() == Next(cfg, old(View()), Reset).0
    {
      state, deadline, voiced := Idle, None, 0.0;
    }
  }

  // ---------------------------------------------------------------- traces

  /** The machine before input `k`. */
  function At(cfg: Config, xs: seq<Input>, k: nat): Fsm
    requires k <= |xs|
  {
    if k == 0 then Initial else Next(cfg, At(cfg, xs, k - 1), xs[k - 1]).0
  }

  function Acts(cfg: Config, xs: seq<Input>, k: nat): seq<Action>
    requires k < |xs|
  {
    Next(cfg, At(cfg, xs, k), xs[k]).1
  }

  predicate Silent(x: Input) { x.Vad? && !x.speech }
  predicate Voiced(x: Input) { x.Vad? && x.speech }

  /** How long the unbroken voiced run before input `k` has lasted. */
  function VoicedRun(xs: seq<Input>, k: nat): real
    requires k <= |xs|
  {
    if k == 0 || !Voiced(xs[k - 1]) then 0.0 else VoicedRun(xs, k - 1) + xs[k - 1].dur
  }

  /** The silence before input `k` began at frame `j`, after speech, and its deadline is still
      to come. */
  predicate WaitingSince(cfg: Config, xs: seq<Input>, j: nat, k: nat)
    requires j < k <= |xs|
  {
    && At(cfg, xs, j).state.UserSpeaking? && (forall i | j <= i < k :: Silent(xs[i]))
    && (forall i | j < i < k :: xs[i].now < Due(cfg, xs, j))
  }

  function Due(cfg: Config, xs: seq<Input>, j: nat): real
    requires j < |xs| && xs[j].Vad?
  {
    xs[j].now + Silence(cfg, xs[j].terminal)
  }

  /** The frame at which a pending silence began. */
  lemma {:induction false} PendingSince(cfg: Config, xs: seq<Input>, k: nat) returns (j: nat)
    requires k <= |xs| && At(cfg, xs, k).state.EndpointPending?
    ensures j < k && WaitingSince(cfg, xs, j, k)
    ensures At(cfg, xs, k).deadline == Some(Due(cfg, xs, j))
  {
    var before := At(cfg, xs, k - 1);
    if before.state.UserSpeaking? {
      j := k - 1;
    } else {
      j := PendingSince(cfg, xs, k - 1);
    }
  }

  lemma {:induction false} WaitingIsPending(cfg: Config, xs: seq<Input>, j: nat, k: nat)
    requires j < k <= |xs| && WaitingSince(cfg, xs, j, k)
    ensures At(cfg, xs, k).state.EndpointPending? && At(cfg, xs, k).deadline == Some(Due(cfg, xs, j))
  {
    if k > j + 1 {
      WaitingIsPending(cfg, xs, j, k - 1);
      assert xs[k - 1].now < Due(cfg, xs, j) && Silent(xs[k - 1]);
    } else {
      assert Silent(xs[j]);
    }
  }

  /** A deadline exists exactly while an endpoint is pending, and voice counted during playback
      exists only while responding. */
  lemma {:induction false} DeadlineExactlyPending(cfg: Config, xs: seq<Input>, k: nat)
    requires k <= |xs|
    ensures At(cfg, xs, k).deadline.Some? <==> At(cfg, xs, k).state.EndpointPending?
    ensures !At(cfg, xs, k).state.Responding? ==> At(cfg, xs, k).voiced == 0.0
  {
    if k > 0 { DeadlineExactlyPending(cfg, xs, k - 1); }
  }

  /** The endpoint fires exactly at the first frame at or past the deadline of a silence that
      followed speech and was never broken. */
  lemma EndpointExactly(cfg: Config, xs: seq<Input>, k: nat)
    requires k < |xs|
    ensures Endpoint in Acts(cfg, xs, k) <==>
      exists j | 0 <= j < k :: WaitingSince(cfg, xs, j, k) && Silent(xs[k]) && xs[k].now >= Due(cfg, xs, j)
  {
    if At(cfg, xs, k).state.EndpointPending? { var j := PendingSince(cfg, xs, k); }
    forall j | 0 <= j < k && WaitingSince(cfg, xs, j, k) && Silent(xs[k]) && xs[k].now >= Due(cfg, xs, j)
      ensures Endpoint in Acts(cfg, xs, k)
    {
      WaitingIsPending(cfg, xs, j, k);
      assert Acts(cfg, xs, k)[0] == Endpoint;
    }
  }

  /** While responding, the voice counted is the unbroken voiced run, still short of the limit. */
  lemma {:induction false} CountsTheRun(cfg: Config, xs: seq<Input>, k: nat)
    requires cfg.bMin > 0.0 && k <= |xs| && At(cfg, xs, k).state.Responding?
    ensures At(cfg, xs, k).voiced == VoicedRun(xs, k) < cfg.bMin
  {
    DeadlineExactlyPending(cfg, xs, k - 1);
    if At(cfg, xs, k - 1).state.Responding? { CountsTheRun(cfg, xs, k - 1); }
  }

  /** Barge-in fires exactly on the voiced frame, while responding, at which the unbroken voiced
      run reaches the limit; before that frame it was short of it. */
  lemma AbortExactly(cfg: Config, xs: seq<Input>, k: nat)
    requires cfg.bMin > 0.0 && k < |xs|
    ensures Abort in Acts(cfg, xs, k) <==>
      (At(cfg, xs, k).state.Responding? && Voiced(xs[k]) && VoicedRun(xs, k + 1) >= cfg.bMin)
    ensures At(cfg, xs, k).state.Responding? ==> VoicedRun(xs, k) < cfg.bMin
  {
    var m := At(cfg, xs, k);
    if m.state.Responding? {
      CountsTheRun(cfg, xs, k);
      assert m.voiced + (if Voiced(xs[k]) then xs[k].dur else 0.0) >= cfg.bMin && Voiced(xs[k]) ==>
        Acts(cfg, xs, k)[0] == Abort;
    }
  }

  lemma {:induction false} RespondsUntil(cfg: Config, xs: seq<Input>, j: nat, k: nat)
    requires j < k < |xs| && Endpoint in Acts(cfg, xs, j)
    requires forall i | j < i < k :: xs[i].Vad? && Abort !in Acts(cfg, xs, i)
    ensures At(cfg, xs, k).state.Responding?
  {
    if k > j + 1 {
      RespondsUntil(cfg, xs, j, k - 1);
      assert [Abort, OpenStt][0] == Abort && xs[k - 1].Vad?;
    }
  }

  /** One response per turn: between two endpoints there is a barge-in or a reset. */
  lemma OneResponsePerTurn(cfg: Config, xs: seq<Input>, j: nat, k: nat)
    requires j < k < |xs| && Endpoint in Acts(cfg, xs, j) && Endpoint in Acts(cfg, xs, k)
    ensures exists i | j < i < k :: xs[i].Reset? || Abort in Acts(cfg, xs, i)
  {
    if forall i | j < i < k :: xs[i].Vad? && Abort !in Acts(cfg, xs, i) {
      RespondsUntil(cfg, xs, j, k);
      assert false;
    }
  }
}
