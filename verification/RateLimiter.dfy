/** The fixed-window rate limiter (crates/orchestrator/src/ratelimit.rs), over whole runs of
    calls. Time is in milliseconds. */
module RateLimiter {
  import opened Seqs
  import opened Wrappers

  datatype Class = Create | Resume | Signal

  function Limit(c: Class): (r: nat)
    ensures r >= 1
  {
    match c case Create => 10 case Resume => 30 case Signal => 50
  }

  function Span(c: Class): (r: nat)
    ensures r >= 1
  {
    match c case Create => 60000 case Resume => 60000 case Signal => 1000
  }

  datatype Window = Window(start: nat, count: nat)
  datatype Key = Key(token: string, class_: Class)
  datatype Call = Call(key: Key, now: nat)

  type Windows = map<Key, Window>

  /** The window a call falls in: a fresh one if there is none or it has run out. */
  function Current(win: Option<Window>, c: Class, now: nat): Window {
    match win
    case None => Window(now, 0)
    case Some(w) => if Minus(now, w.start) >= Span(c) then Window(now, 0) else w
  }

  predicate Allows(win: Option<Window>, c: Class, now: nat) { Current(win, c, now).count < Limit(c) }

  function Checked(win: Option<Window>, c: Class, now: nat): Window {
    var w := Current(win, c, now);
    if Allows(win, c, now) then w.(count := w.count + 1) else w
  }

  function At(windows: Windows, key: Key): Option<Window> { if key in windows then Some(windows[key]) else None }

  function Step(windows: Windows, call: Call): Windows {
    windows[call.key := Checked(At(windows, call.key), call.key.class_, call.now)]
  }

  class Limiter {
    var windows: Windows

    constructor ()
      ensures windows == map[]
    {
      windows := map[];
    }

    method CheckAt(key: Key, now: nat) returns (ok: bool)
      modifies this
      ensures windows == Step(old(windows), Call(key, now))
      ensures ok == Allows(At(old(windows), key), key.class_, now)
    {
      var win := if key in windows then windows[key] else Window(now, 0);
      if Minus(now, win.start) >= Span(key.class_) { win := Window(now, 0); }
      if win.count >= Limit(key.class_) {
        windows := windows[key := win];
        return false;
      }
      windows := windows[key := win.(count := win.count + 1)];
      ok := true;
    }
  }

  // ---------------------------------------------------------------- runs

  /** When this key's calls were accepted, in order. */
  function Accepted(windows: Windows, calls: seq<Call>, key: Key): seq<nat>
    decreases |calls|
  {
    if calls == [] then []
    else
      (if calls[0].key == key && Allows(At(windows, key), key.class_, calls[0].now) then [calls[0].now] else [])
      + Accepted(Step(windows, calls[0]), calls[1..], key)
  }

  /** The times of this key's calls. */
  function Times(calls: seq<Call>, key: Key): seq<nat> {
    if calls == [] then []
    else (if calls[0].key == key then [calls[0].now] else []) + Times(calls[1..], key)
  }

  /** The same for a key alone. */
  function AcceptedAlone(win: Option<Window>, c: Class, times: seq<nat>): seq<nat>
    decreases |times|
  {
    if times == [] then []
    else
      (if Allows(win, c, times[0]) then [times[0]] else [])
      + AcceptedAlone(Some(Checked(win, c, times[0])), c, times[1..])
  }

  /** Keys do not affect each other: a key's calls are answered as if it were alone. */
  lemma {:induction false} KeysAreIndependent(windows: Windows, calls: seq<Call>, key: Key)
    ensures Accepted(windows, calls, key) == AcceptedAlone(At(windows, key), key.class_, Times(calls, key))
    decreases |calls|
  {
    if calls != [] {
      var rest := Times(calls[1..], key);
      KeysAreIndependent(Step(windows, calls[0]), calls[1..], key);
      if calls[0].key == key {
        assert ([calls[0].now] + rest)[1..] == rest;
      } else {
        assert [] + rest == rest;
      }
    }
  }

  /** A refused call changes nothing, so it uses no budget. */
  lemma RefusedUsesNothing(windows: Windows, call: Call)
    requires !Allows(At(windows, call.key), call.key.class_, call.now)
    ensures Step(windows, call) == windows
  {}

  // ---------------------------------------------------------------- counting accepted calls

  function CountIn(times: seq<nat>, from: int, to: int): (n: nat)
    ensures n <= |times|
  {
    if times == [] then 0
    else CountIn(times[..|times| - 1], from, to) + if from <= times[|times| - 1] < to then 1 else 0
  }

  lemma CountSnoc(times: seq<nat>, t: nat, from: int, to: int)
    ensures CountIn(times + [t], from, to) == CountIn(times, from, to) + if from <= t < to then 1 else 0
  {
    assert (times + [t])[..|times|] == times;
  }

  lemma {:induction false} CountSplit(times: seq<nat>, a: int, b: int, c: int)
    requires a <= b <= c
    ensures CountIn(times, a, c) == CountIn(times, a, b) + CountIn(times, b, c)
  {
    if times != [] { CountSplit(times[..|times| - 1], a, b, c); }
  }

  lemma {:induction false} CountInto(times: seq<nat>, a: int, b: int, c: int, d: int)
    requires forall t :: t in times && a <= t < b ==> c <= t < d
    ensures CountIn(times, a, b) <= CountIn(times, c, d)
  {
    if times != [] {
      var n := |times| - 1;
      assert times[n] in times && forall t <- times[..n] :: t in times;
      CountInto(times[..n], a, b, c, d);
    }
  }

  lemma {:induction false} CountMember(times: seq<nat>, t: nat)
    requires t in times
    ensures CountIn(times, t, t + 1) >= 1
  {
    var n := |times| - 1;
    if times[n] != t {
      assert t in times[..n];
      CountMember(times[..n], t);
    }
  }

  lemma {:induction false} CountNone(times: seq<nat>, a: int, b: int)
    requires forall t :: t in times ==> t < a
    ensures CountIn(times, a, b) == 0
  {
    if times != [] {
      var n := |times| - 1;
      assert times[n] in times && forall t <- times[..n] :: t in times;
      CountNone(times[..n], a, b);
    }
  }

  // ---------------------------------------------------------------- the bound

  function Before(w: Window, accepted: seq<nat>, from: int): nat { CountIn(accepted, from, w.start) }

  /** Where a key stands at `now`: its window counts the calls accepted since its start, the
      first of which is at the start; and of the calls before it, those less than a span earlier
      are fewer than the limit. */
  ghost predicate Standing(w: Window, c: Class, accepted: seq<nat>, now: nat) {
    && w.start <= now && w.start in accepted && w.count <= Limit(c)
    && (forall t :: t in accepted ==> t <= now && t < w.start + Span(c))
    && CountIn(accepted, w.start, w.start + Span(c)) == w.count
    && (forall from: int :: from > w.start - Span(c) ==> Before(w, accepted, from) <= Limit(c) - 1)
  }

  /** Calls accepted in the half-open interval of one span from `from`. */
  function InSpan(accepted: seq<nat>, c: Class, from: int): nat { CountIn(accepted, from, from + Span(c)) }

  ghost predicate Bounded(c: Class, accepted: seq<nat>) {
    forall from: int :: InSpan(accepted, c, from) <= 2 * Limit(c) - 1
  }

  lemma FirstStands(c: Class, now: nat)
    ensures Standing(Checked(None, c, now), c, [now], now) && Bounded(c, [now])
  {
    assert [now][..0] == [];
  }

  lemma SameWindowStands(w: Window, c: Class, accepted: seq<nat>, last: nat, now: nat)
    requires Standing(w, c, accepted, last) && Bounded(c, accepted)
    requires last <= now < w.start + Span(c) && w.count < Limit(c)
    ensures Standing(Window(w.start, w.count + 1), c, accepted + [now], now)
    ensures Bounded(c, accepted + [now])
  {
    CountSnoc(accepted, now, w.start, w.start + Span(c));
    var next, more := Window(w.start, w.count + 1), accepted + [now];
    forall from: int ensures from > w.start - Span(c) ==> Before(next, more, from) <= Limit(c) - 1 {
      CountSnoc(accepted, now, from, w.start);
      assert Before(w, accepted, from) == CountIn(accepted, from, w.start);
    }
    forall from: int ensures InSpan(accepted + [now], c, from) <= 2 * Limit(c) - 1 {
      CountSnoc(accepted, now, from, from + Span(c));
      assert InSpan(accepted, c, from) <= 2 * Limit(c) - 1;
      if from <= now < from + Span(c) { RoomFor(w, c, accepted, from); }
    }
  }

  /** An interval that reaches into the window holds less than two windows' worth. */
  lemma RoomFor(w: Window, c: Class, accepted: seq<nat>, from: int)
    requires w.count < Limit(c) && w.start - Span(c) < from
    requires forall t :: t in accepted ==> t < w.start + Span(c)
    requires CountIn(accepted, w.start, w.start + Span(c)) == w.count
    requires Before(w, accepted, from) <= Limit(c) - 1
    ensures InSpan(accepted, c, from) <= 2 * Limit(c) - 2
  {
    if from <= w.start {
      CountSplit(accepted, from, w.start, from + Span(c));
      CountInto(accepted, w.start, from + Span(c), w.start, w.start + Span(c));
    } else {
      CountInto(accepted, from, from + Span(c), w.start, w.start + Span(c));
    }
  }

  lemma NewWindowStands(w: Window, c: Class, accepted: seq<nat>, last: nat, now: nat)
    requires Standing(w, c, accepted, last) && Bounded(c, accepted)
    requires now >= w.start + Span(c)
    ensures Standing(Window(now, 1), c, accepted + [now], now)
    ensures Bounded(c, accepted + [now])
  {
    CountSnoc(accepted, now, now, now + Span(c));
    CountNone(accepted, now, now + Span(c));
    forall from: int
      ensures from > now - Span(c) ==> Before(Window(now, 1), accepted + [now], from) <= Limit(c) - 1
    {
      CountSnoc(accepted, now, from, now);
      if from > now - Span(c) { AllButTheFirst(w, c, accepted, from, now); }
    }
    forall from: int ensures InSpan(accepted + [now], c, from) <= 2 * Limit(c) - 1 {
      CountSnoc(accepted, now, from, from + Span(c));
      assert InSpan(accepted, c, from) <= 2 * Limit(c) - 1;
      if from <= now < from + Span(c) { AllButTheFirst(w, c, accepted, from, from + Span(c)); }
    }
  }

  /** Past the start of a window fewer than its limit were accepted. */
  lemma AllButTheFirst(w: Window, c: Class, accepted: seq<nat>, from: int, to: int)
    requires w.start in accepted && w.count <= Limit(c) && from > w.start
    requires forall t :: t in accepted ==> t < w.start + Span(c)
    requires CountIn(accepted, w.start, w.start + Span(c)) == w.count
    ensures CountIn(accepted, from, to) <= Limit(c) - 1
  {
    CountMember(accepted, w.start);
    CountSplit(accepted, w.start, w.start + 1, w.start + Span(c));
    CountInto(accepted, from, to, w.start + 1, w.start + Span(c));
  }

  /** One call of a key, accepted or not. */
  lemma CallStands(w: Window, c: Class, accepted: seq<nat>, last: nat, now: nat)
    requires Standing(w, c, accepted, last) && Bounded(c, accepted) && last <= now
    ensures var more := if Allows(Some(w), c, now) then accepted + [now] else accepted;
      Standing(Checked(Some(w), c, now), c, more, now) && Bounded(c, more)
  {
    if now >= w.start + Span(c) {
      NewWindowStands(w, c, accepted, last, now);
    } else if w.count < Limit(c) {
      SameWindowStands(w, c, accepted, last, now);
    }
  }

  predicate InOrder(times: seq<nat>) { forall i, j | 0 <= i < j < |times| :: times[i] <= times[j] }

  lemma NextInOrder(last: nat, times: seq<nat>)
    requires InOrder([last] + times) && times != []
    ensures last <= times[0] && InOrder([times[0]] + times[1..])
  {
    var all := [last] + times;
    assert all[0] <= all[1];
    assert [times[0]] + times[1..] == all[1..];
  }

  lemma {:induction false} RunStands(w: Window, c: Class, accepted: seq<nat>, last: nat, times: seq<nat>)
    requires Standing(w, c, accepted, last) && Bounded(c, accepted)
    requires InOrder([last] + times)
    ensures Bounded(c, accepted + AcceptedAlone(Some(w), c, times))
    decreases |times|
  {
    if times == [] {
      assert accepted + [] == accepted;
    } else {
      var now, next := times[0], Checked(Some(w), c, times[0]);
      var now1 := if Allows(Some(w), c, now) then [now] else [];
      NextInOrder(last, times);
      CallStands(w, c, accepted, last, now);
      assert accepted + [] == accepted;
      RunStands(next, c, accepted + now1, now, times[1..]);
      Assoc(accepted, now1, AcceptedAlone(Some(next), c, times[1..]));
    }
  }

  lemma {:induction false} TimesInOrder(calls: seq<Call>, key: Key)
    requires forall i, j | 0 <= i < j < |calls| :: calls[i].now <= calls[j].now
    ensures InOrder(Times(calls, key))
    ensures forall t :: t in Times(calls, key) ==> exists call <- calls :: call.now == t
  {
    if calls != [] {
      TimesInOrder(calls[1..], key);
      assert calls[0] in calls && forall call <- calls[1..] :: call in calls;
      var rest := Times(calls[1..], key);
      forall i | 0 <= i < |rest| ensures calls[0].now <= rest[i] {
        assert rest[i] in rest;
        var call :| call in calls[1..] && call.now == rest[i];
        var k :| 0 <= k < |calls| - 1 && calls[1..][k] == call;
        assert calls[0].now <= calls[k + 1].now;
      }
    }
  }

  /** Over every run with a clock that never goes back, whatever the other keys do, any
      half-open interval of one span holds less than twice the limit of a key's accepted calls. */
  lemma FixedWindowBound(calls: seq<Call>, key: Key)
    requires forall i, j | 0 <= i < j < |calls| :: calls[i].now <= calls[j].now
    ensures Bounded(key.class_, Accepted(map[], calls, key))
  {
    var c, times := key.class_, Times(calls, key);
    KeysAreIndependent(map[], calls, key);
    TimesInOrder(calls, key);
    if times != [] {
      FirstStands(c, times[0]);
      assert [times[0]] + times[1..] == times;
      RunStands(Checked(None, c, times[0]), c, [times[0]], times[0], times[1..]);
    }
  }

  // ---------------------------------------------------------------- where a run leaves a key

  function After(windows: Windows, calls: seq<Call>): Windows
    decreases |calls|
  {
    if calls == [] then windows else After(Step(windows, calls[0]), calls[1..])
  }

  predicate Ordered(calls: seq<Call>) { forall i, j | 0 <= i < j < |calls| :: calls[i].now <= calls[j].now }

  /** What a run has made of one key: no call of it yet and no window, or a standing window. */
  ghost predicate Stands(windows: Windows, key: Key, accepted: seq<nat>, last: nat) {
    match At(windows, key)
    case None => accepted == []
    case Some(w) => Standing(w, key.class_, accepted, last) && Bounded(key.class_, accepted)
  }

  lemma StandsLater(windows: Windows, key: Key, accepted: seq<nat>, last: nat, now: nat)
    requires Stands(windows, key, accepted, last) && last <= now
    ensures Stands(windows, key, accepted, now)
  {}

  lemma StepStands(windows: Windows, key: Key, accepted: seq<nat>, last: nat, call: Call)
    requires Stands(windows, key, accepted, last) && last <= call.now
    ensures var more := accepted + Accepted(windows, [call], key);
      Stands(Step(windows, call), key, more, call.now)
  {
    assert [call][1..] == [] && Accepted(Step(windows, call), [], key) == [];
    if call.key == key {
      var mine := if Allows(At(windows, key), key.class_, call.now) then [call.now] else [];
      assert Accepted(windows, [call], key) == mine + [] == mine;
      match At(windows, key) {
        case None =>
          FirstStands(key.class_, call.now);
          assert accepted + [call.now] == [call.now];
        case Some(w) =>
          CallStands(w, key.class_, accepted, last, call.now);
          assert accepted + [] == accepted;
      }
    } else {
      assert Accepted(windows, [call], key) == [] && accepted + [] == accepted;
      StandsLater(windows, key, accepted, last, call.now);
    }
  }

  lemma AcceptedFirstCall(windows: Windows, calls: seq<Call>, key: Key)
    requires calls != []
    ensures Accepted(windows, calls, key)
      == Accepted(windows, [calls[0]], key) + Accepted(Step(windows, calls[0]), calls[1..], key)
  {
    assert [calls[0]][1..] == [] && Accepted(Step(windows, calls[0]), [], key) == [];
    var mine :=
      if calls[0].key == key && Allows(At(windows, key), key.class_, calls[0].now) then [calls[0].now] else [];
    assert mine + [] == mine;
  }

  lemma {:induction false} RunLeavesStanding(windows: Windows, key: Key, accepted: seq<nat>, last: nat,
      calls: seq<Call>)
    requires Stands(windows, key, accepted, last) && Ordered(calls)
    requires calls != [] ==> last <= calls[0].now
    ensures Stands(After(windows, calls), key, accepted + Accepted(windows, calls, key),
      if calls == [] then last else calls[|calls| - 1].now)
    decreases |calls|
  {
    if calls == [] {
      assert accepted + [] == accepted;
    } else {
      var first := Accepted(windows, [calls[0]], key);
      StepStands(windows, key, accepted, last, calls[0]);
      if |calls| > 1 { assert calls[0].now <= calls[1].now; }
      RunLeavesStanding(Step(windows, calls[0]), key, accepted + first, calls[0].now, calls[1..]);
      AcceptedFirstCall(windows, calls, key);
      Assoc(accepted, first, Accepted(Step(windows, calls[0]), calls[1..], key));
    }
  }

  /** After any ordered run from nothing a key has no window and no accepted call, or a window
      that counts them. */
  lemma EveryRunStands(calls: seq<Call>, key: Key)
    requires Ordered(calls)
    ensures Stands(After(map[], calls), key, Accepted(map[], calls, key),
        if calls == [] then 0 else calls[|calls| - 1].now)
  {
    RunLeavesStanding(map[], key, [], 0, calls);
    assert [] + Accepted(map[], calls, key) == Accepted(map[], calls, key);
  }

  /** A refusal is due: whatever came before, the full limit was accepted within the span that
      ends at the refused call. */
  lemma RefusalIsDue(calls: seq<Call>, call: Call)
    requires Ordered(calls + [call])
    requires !Allows(At(After(map[], calls), call.key), call.key.class_, call.now)
    ensures var c := call.key.class_;
      CountIn(Accepted(map[], calls, call.key), call.now - Span(c) + 1, call.now + 1) >= Limit(c)
  {
    var c, accepted := call.key.class_, Accepted(map[], calls, call.key);
    assert forall i | 0 <= i < |calls| :: (calls + [call])[i] == calls[i];
    assert (calls + [call])[|calls|] == call;
    EveryRunStands(calls, call.key);
    var w := At(After(map[], calls), call.key).value;
    CountInto(accepted, w.start, w.start + Span(c), call.now - Span(c) + 1, call.now + 1);
  }

  lemma OneCallStands(w: Window, c: Class, accepted: seq<nat>, last: nat, now: nat, mine: seq<nat>)
    requires Standing(w, c, accepted, last) && Bounded(c, accepted) && last <= now < w.start + Span(c)
    requires mine == if Allows(Some(w), c, now) then [now] else []
    ensures Standing(Checked(Some(w), c, now), c, accepted + mine, now) && Bounded(c, accepted + mine)
    ensures Checked(Some(w), c, now).start == w.start
  {
    CallStands(w, c, accepted, last, now);
    assert accepted + [] == accepted;
  }

  lemma AcceptedNext(w: Window, c: Class, times: seq<nat>, mine: seq<nat>)
    requires times != [] && mine == if Allows(Some(w), c, times[0]) then [times[0]] else []
    ensures AcceptedAlone(Some(w), c, times) == mine + AcceptedAlone(Some(Checked(Some(w), c, times[0])), c, times[1..])
  {}

  /** A window keeps within the limit for good: later calls fall in it while it is current and
      past it ever after. */
  lemma {:induction false} WindowKeepsLimit(w: Window, c: Class, accepted: seq<nat>, last: nat, times: seq<nat>)
    requires Standing(w, c, accepted, last) && Bounded(c, accepted) && InOrder([last] + times)
    ensures CountIn(accepted + AcceptedAlone(Some(w), c, times), w.start, w.start + Span(c)) <= Limit(c)
    decreases |times|
  {
    if times == [] {
      assert accepted + [] == accepted;
    } else {
      var now, next := times[0], Checked(Some(w), c, times[0]);
      NextInOrder(last, times);
      if now >= w.start + Span(c) {
        assert [now] + times[1..] == times;
        AllPast(Some(w), c, times, w.start + Span(c));
        CountConcat(accepted, AcceptedAlone(Some(w), c, times), w.start, w.start + Span(c));
      } else {
        var mine := if Allows(Some(w), c, now) then [now] else [];
        OneCallStands(w, c, accepted, last, now, mine);
        WindowKeepsLimit(next, c, accepted + mine, now, times[1..]);
        AcceptedNext(w, c, times, mine);
        Assoc(accepted, mine, AcceptedAlone(Some(next), c, times[1..]));
      }
    }
  }

  lemma {:induction false} AllPast(win: Option<Window>, c: Class, times: seq<nat>, bound: nat)
    requires InOrder(times) && (times != [] ==> times[0] >= bound)
    ensures forall t :: t in AcceptedAlone(win, c, times) ==> t >= bound
    decreases |times|
  {
    if |times| > 0 {
      if |times| > 1 { assert times[0] <= times[1]; }
      assert InOrder(times[1..]);
      AllPast(Some(Checked(win, c, times[0])), c, times[1..], bound);
    }
  }

  lemma {:induction false} CountConcat(a: seq<nat>, b: seq<nat>, from: int, to: int)
    requires forall t :: t in b ==> t >= to
    ensures CountIn(a + b, from, to) == CountIn(a, from, to)
  {
    if b == [] {
      assert a + b == a;
    } else {
      var n := |b| - 1;
      assert b[n] in b && forall t <- b[..n] :: t in b;
      assert (a + b)[..|a + b| - 1] == a + b[..n];
      CountConcat(a, b[..n], from, to);
    }
  }

  lemma {:induction false} AcceptedConcat(windows: Windows, a: seq<Call>, b: seq<Call>, key: Key)
    ensures Accepted(windows, a + b, key) == Accepted(windows, a, key) + Accepted(After(windows, a), b, key)
    decreases |a|
  {
    if a == [] {
      assert a + b == b && [] + Accepted(windows, b, key) == Accepted(windows, b, key);
    } else {
      assert (a + b)[0] == a[0] && (a + b)[1..] == a[1..] + b;
      AcceptedFirstCall(windows, a + b, key);
      AcceptedFirstCall(windows, a, key);
      AcceptedConcat(Step(windows, a[0]), a[1..], b, key);
      Assoc(Accepted(windows, [a[0]], key), Accepted(Step(windows, a[0]), a[1..], key), Accepted(After(windows, a),
          b, key));
    }
  }

  /** Each window holds at most the limit: take any ordered run and any moment in it, and the
      window then current for a key has no more accepted calls than that in the whole run. */
  lemma EachWindowWithinLimit(before: seq<Call>, later: seq<Call>, key: Key, w: Window)
    requires Ordered(before + later) && At(After(map[], before), key) == Some(w)
    ensures CountIn(Accepted(map[], before + later, key), w.start, w.start + Span(key.class_)) <= Limit(key.class_)
  {
    var last := if before == [] then 0 else before[|before| - 1].now;
    SplitRun(before, later, key, last);
    WindowStands(before, key, w, last);
    AcceptedLater(before, later, key, w);
    WindowKeepsLimit(w, key.class_, Accepted(map[], before, key), last, Times(later, key));
  }

  lemma SplitRun(before: seq<Call>, later: seq<Call>, key: Key, last: nat)
    requires Ordered(before + later) && last == if before == [] then 0 else before[|before| - 1].now
    ensures Ordered(before) && InOrder([last] + Times(later, key))
  {
    OrderedParts(before, later);
    LaterInOrder(last, later, key);
  }

  lemma WindowStands(calls: seq<Call>, key: Key, w: Window, last: nat)
    requires Ordered(calls) && At(After(map[], calls), key) == Some(w)
    requires last == if calls == [] then 0 else calls[|calls| - 1].now
    ensures Standing(w, key.class_, Accepted(map[], calls, key), last)
    ensures Bounded(key.class_, Accepted(map[], calls, key))
  {
    EveryRunStands(calls, key);
  }

  lemma AcceptedLater(before: seq<Call>, later: seq<Call>, key: Key, w: Window)
    requires At(After(map[], before), key) == Some(w)
    ensures Accepted(map[], before + later, key)
      == Accepted(map[], before, key) + AcceptedAlone(Some(w), key.class_, Times(later, key))
  {
    AcceptedConcat(map[], before, later, key);
    KeysAreIndependent(After(map[], before), later, key);
  }

  lemma OrderedParts(a: seq<Call>, b: seq<Call>)
    requires Ordered(a + b)
    ensures Ordered(a) && Ordered(b)
    ensures forall call <- b :: (if a == [] then 0 else a[|a| - 1].now) <= call.now
  {
    assert forall i | 0 <= i < |a| :: (a + b)[i] == a[i];
    assert forall i | 0 <= i < |b| :: (a + b)[|a| + i] == b[i];
  }

  lemma LaterInOrder(last: nat, calls: seq<Call>, key: Key)
    requires Ordered(calls) && forall call <- calls :: last <= call.now
    ensures InOrder([last] + Times(calls, key))
  {
    var times := Times(calls, key);
    TimesInOrder(calls, key);
    forall i, j | 0 <= i < j < |[last] + times| ensures ([last] + times)[i] <= ([last] + times)[j] {
      assert ([last] + times)[j] == times[j - 1] && times[j - 1] in times;
      assert i > 0 ==> ([last] + times)[i] == times[i - 1];
    }
  }

  // ---------------------------------------------------------------- the bound is reached

  function Burst(t: nat, n: nat): (r: seq<nat>)
    ensures |r| == n && forall i | 0 <= i < n :: r[i] == t
  {
    if n == 0 then [] else [t] + Burst(t, n - 1)
  }

  lemma AcceptedFirst(w: Window, c: Class, t: nat, rest: seq<nat>)
    requires w.start <= t < w.start + Span(c) && w.count < Limit(c)
    ensures AcceptedAlone(Some(w), c, [t] + rest)
      == [t] + AcceptedAlone(Some(Window(w.start, w.count + 1)), c, rest)
  {
    assert ([t] + rest)[1..] == rest;
  }

  lemma BurstFirst(t: nat, n: nat, later: seq<nat>)
    requires n > 0
    ensures Burst(t, n) + later == [t] + (Burst(t, n - 1) + later)
  {}

  /** A burst inside a window with room is accepted whole. */
  lemma {:induction false} BurstAccepted(w: Window, c: Class, t: nat, n: nat, later: seq<nat>)
    requires w.start <= t < w.start + Span(c) && w.count + n <= Limit(c)
    ensures AcceptedAlone(Some(w), c, Burst(t, n) + later)
      == Burst(t, n) + AcceptedAlone(Some(Window(w.start, w.count + n)), c, later)
    decreases n
  {
    if n == 0 {
      assert Burst(t, 0) + later == later;
    } else {
      BurstFirst(t, n, later);
      AcceptedFirst(w, c, t, Burst(t, n - 1) + later);
      BurstAccepted(Window(w.start, w.count + 1), c, t, n - 1, later);
      BurstFirst(t, n, AcceptedAlone(Some(Window(w.start, w.count + n)), c, later));
    }
  }

  /** One call, the rest of the limit at the window's very end, the limit again right after it. */
  function Worst(c: Class): seq<nat> {
    [0] + (Burst(Span(c) - 1, Limit(c) - 1) + ([Span(c)] + Burst(Span(c), Limit(c) - 1)))
  }

  /** All of it is accepted, and all but the first call fall within one span: the bound cannot
      be lowered. */
  lemma BoundIsReached(c: Class)
    ensures InOrder(Worst(c))
    ensures AcceptedAlone(None, c, Worst(c)) == Worst(c)
    ensures InSpan(Worst(c), c, 1) == 2 * Limit(c) - 1
  {
    WorstOrdered(c);
    WorstAccepted(c);
    WorstCounted(c);
  }

  lemma WorstAccepted(c: Class)
    ensures AcceptedAlone(None, c, Worst(c)) == Worst(c)
  {
    var second := [Span(c)] + Burst(Span(c), Limit(c) - 1);
    SecondAccepted(c, Window(0, Limit(c)), second);
    FirstAccepted(c, Burst(Span(c) - 1, Limit(c) - 1), second);
  }

  lemma WorstCounted(c: Class)
    ensures InSpan(Worst(c), c, 1) == 2 * Limit(c) - 1
  {
    WorstOf(c, Burst(Span(c) - 1, Limit(c) - 1), [Span(c)] + Burst(Span(c), Limit(c) - 1), Span(c), Limit(c) - 1);
  }

  lemma WorstOf(c: Class, first: seq<nat>, second: seq<nat>, s: nat, n: nat)
    requires Worst(c) == [0] + (first + second) && s == Span(c) && s >= 2 && |first| == n && |second| == n + 1
    requires forall i | 0 <= i < n :: first[i] == s - 1
    requires forall i | 0 <= i < n + 1 :: second[i] == s
    ensures InSpan(Worst(c), c, 1) == 2 * n + 1
  {
    CountBursts(first, second, s);
  }

  lemma CountBursts(first: seq<nat>, second: seq<nat>, s: nat)
    requires s >= 2 && (forall i | 0 <= i < |first| :: first[i] == s - 1)
    requires forall i | 0 <= i < |second| :: second[i] == s
    ensures CountIn([0] + (first + second), 1, 1 + s) == |first| + |second|
  {
    CountAllButFirst(first + second, s);
  }

  lemma WorstOrdered(c: Class)
    ensures InOrder(Worst(c))
  {
    WorstInOrder(Burst(Span(c) - 1, Limit(c) - 1), [Span(c)] + Burst(Span(c), Limit(c) - 1), Span(c));
  }

  lemma WorstInOrder(first: seq<nat>, second: seq<nat>, s: nat)
    requires s > 0 && (forall i | 0 <= i < |first| :: first[i] == s - 1)
    requires forall i | 0 <= i < |second| :: second[i] == s
    ensures InOrder([0] + (first + second))
  {
    var all := [0] + (first + second);
    forall i, j | 0 <= i < j < |all| ensures all[i] <= all[j] {
      assert i > 0 ==> all[i] == (first + second)[i - 1];
      assert all[j] == (first + second)[j - 1];
    }
  }

  lemma SecondAccepted(c: Class, w: Window, second: seq<nat>)
    requires second == [Span(c)] + Burst(Span(c), Limit(c) - 1) && w.start == 0
    ensures AcceptedAlone(Some(w), c, second) == second
  {
    var burst := Burst(Span(c), Limit(c) - 1);
    assert second[1..] == burst == burst + [];
    BurstAccepted(Window(Span(c), 1), c, Span(c), Limit(c) - 1, []);
  }

  lemma FirstAccepted(c: Class, burst: seq<nat>, second: seq<nat>)
    requires burst == Burst(Span(c) - 1, Limit(c) - 1)
    requires AcceptedAlone(Some(Window(0, Limit(c))), c, second) == second
    ensures AcceptedAlone(None, c, [0] + (burst + second)) == [0] + (burst + second)
  {
    assert ([0] + (burst + second))[1..] == burst + second;
    BurstAccepted(Window(0, 1), c, Span(c) - 1, Limit(c) - 1, second);
  }

  lemma {:induction false} CountAllButFirst(first: seq<nat>, s: nat)
    requires s >= 2 && forall i | 0 <= i < |first| :: s - 1 <= first[i] <= s
    ensures CountIn([0] + first, 1, 1 + s) == |first|
  {
    if first == [] {
      assert [0] + first == [0] && [0][..0] == [];
    } else {
      assert ([0] + first)[..|first|] == [0] + first[..|first| - 1];
      CountAllButFirst(first[..|first| - 1], s);
    }
  }
}
