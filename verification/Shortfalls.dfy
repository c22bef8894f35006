/** Runs of the durable log that break what its text promises, for the real digest under every
    collision-free hash. */
module Shortfalls {
  import opened Wrappers
  import opened Json
  import opened Canonical
  import opened Chain
  import opened Index
  import opened Writer
  import opened Recovery

  /** An event that says only its turn. */
  function Note(turn: nat): Value { Obj(map["turn_id" := Num(turn)]) }

  lemma NoteHashes(h: Hash, fields: map<string, Value>)
    requires forall k <- fields :: fields[k].Num? || fields[k].Str?
    ensures ComputeHash(h)(Obj(fields)).Ok?
  {
    var e := Obj(fields);
    assert forall k <- Strip(e).fields :: !FloatReached(Strip(e).fields[k]);
    assert !FloatReached(Strip(e));
    CanonicalUnambiguous(e, e);
  }

  lemma NoteSeals(h: Hash, turn: nat, prev: string)
    ensures ContentHash(ComputeHash(h), Note(turn)).Ok? && Seal(ComputeHash(h), Note(turn), prev).Ok?
  {
    var fields := map["turn_id" := Num(turn)];
    NoteHashes(h, fields);
    NoteHashes(h, fields["prev_hash" := Str(prev)]);
    assert fields - {"prev_hash", "hash"} == fields;
  }

  function Woken(): System { System([], None, Some(Tail(GENESIS, 0, []))) }

  lemma WakesEmpty(d: Digest)
    ensures Next(d, Empty, Wake(AllUp)) == Woken() && Lawful(Empty, Wake(AllUp)) && Inv(d, Woken())
  {}

  /** One full commit onto a live writer, and what it leaves. */
  lemma Commit(d: Digest, s: System, body: Value, crash: bool, t: System)
    requires Sound(d) && Inv(d, s) && s.tail.Some? && Fresh(d, s.tail.value, body) && TurnAllowed(s.log, body)
    requires t == Next(d, s, Append(body, StoreUp(Full), crash))
    ensures Inv(d, t) && Payload(t.log) == Payload(s.log) + [Content(body)] && |t.log| == |s.log| + 1
    ensures if crash then t.tail.None? else t.tail.Some?
    ensures U64Field(body, "turn_id") == Some(LastTurn(t.log))
  {
    var step := Append(body, StoreUp(Full), crash);
    AppendSafe(d, s, body, StoreUp(Full), crash);
    StepPayload(d, s, step);
    CommitGrows(d, s, body, Full, s.log + [Seal(d, body, s.tail.value.tip).value]);
    SealFields(d, body, s.tail.value.tip);
  }

  /** This digest takes this body onto any tip. */
  ghost predicate Takes(d: Digest, body: Value) {
    ContentHash(d, body).Ok? && forall prev :: Seal(d, body, prev).Ok?
  }

  lemma NoteTaken(h: Hash, turn: nat)
    ensures Takes(ComputeHash(h), Note(turn))
  {
    forall prev ensures Seal(ComputeHash(h), Note(turn), prev).Ok? { NoteSeals(h, turn, prev); }
    NoteSeals(h, turn, GENESIS);
  }

  /** A wake-up that forgets the window takes a body its log holds once more. */
  lemma WakeAndCommit(d: Digest, s: System, body: Value, woken: System, t: System)
    requires Sound(d) && Inv(d, s) && s.tail.None? && Takes(d, body) && TurnAllowed(s.log, body)
    requires woken == Next(d, s, Wake(AllUp)) && t == Next(d, woken, Append(body, StoreUp(Full), false))
    ensures woken.log == s.log && Payload(t.log) == Payload(s.log) + [Content(body)]
  {
    WakeSafe(d, s, AllUp);
    Commit(d, woken, body, false, t);
  }

  lemma TakenTwice(d: Digest, body: Value, s2: System, s3: System, s4: System)
    requires Sound(d) && Takes(d, body) && TurnAllowed([], body)
    requires s2 == Next(d, Woken(), Append(body, StoreUp(Full), true))
    requires s3 == Next(d, s2, Wake(AllUp)) && s4 == Next(d, s3, Append(body, StoreUp(Full), false))
    ensures Payload(s4.log) == [Content(body), Content(body)]
    ensures TurnAllowed(s3.log, body) && s2.tail.None?
  {
    WakesEmpty(d);
    Commit(d, Woken(), body, true, s2);
    WakeAndCommit(d, s2, body, s3, s4);
    assert ([] + [Content(body)]) + [Content(body)] == [Content(body), Content(body)] && Payload([]) == [];
  }

  /** Commit, crash, wake up, retry: the second writer does not know the event and logs it again. */
  lemma RetryAfterCrashLogsTwice(h: Hash, turn: nat, steps: seq<Step>)
    requires CollisionFree(h) && turn < U64_LIMIT
    requires steps == [Wake(AllUp), Append(Note(turn), StoreUp(Full), true), Wake(AllUp),
      Append(Note(turn), StoreUp(Full), false)]
    ensures var d := ComputeHash(h);
      LawfulRun(d, Empty, steps) && Payload(Run(d, Empty, steps).log) == [Content(Note(turn)), Content(Note(turn))]
  {
    ComputeHashSound(h);
    NoteTaken(h, turn);
    LogsTwice(ComputeHash(h), Note(turn), steps);
  }

  lemma LogsTwice(d: Digest, body: Value, steps: seq<Step>)
    requires Sound(d) && Takes(d, body) && TurnAllowed([], body)
    requires steps == [Wake(AllUp), Append(body, StoreUp(Full), true), Wake(AllUp), Append(body, StoreUp(Full), false)]
    ensures LawfulRun(d, Empty, steps) && Payload(Run(d, Empty, steps).log) == [Content(body), Content(body)]
  {
    WakesEmpty(d);
    var s2 := Next(d, Woken(), steps[1]);
    var s3 := Next(d, s2, steps[2]);
    var s4 := Next(d, s3, steps[3]);
    TakenTwice(d, body, s2, s3, s4);
    FourSteps(d, steps, Woken(), s2, s3, s4);
  }

  /** A turn that goes back is committed, and the log is no longer accepted. */
  lemma EarlierTurnBreaksLog(h: Hash, turn: nat, earlier: nat, steps: seq<Step>)
    requires CollisionFree(h) && earlier < turn < U64_LIMIT
    requires steps == [Wake(AllUp), Append(Note(turn), StoreUp(Full), false),
      Append(Note(earlier), StoreUp(Full), false), Crash]
    ensures var d := ComputeHash(h);
      var log := Run(d, Empty, steps).log;
      !Accepted(d, log) && |log| == 2
  {
    ComputeHashSound(h);
    NoteTaken(h, turn);
    NoteTaken(h, earlier);
    GoesBack(ComputeHash(h), Note(turn), Note(earlier), steps);
  }

  lemma GoesBack(d: Digest, body: Value, other: Value, steps: seq<Step>)
    requires Sound(d) && Takes(d, body) && Takes(d, other) && body.Obj? && other.Obj? && TurnAllowed([], body)
    requires U64Field(other, "turn_id").Some?
    requires U64Field(other, "turn_id").value < U64Field(body, "turn_id").value
    requires steps == [Wake(AllUp), Append(body, StoreUp(Full), false), Append(other, StoreUp(Full), false), Crash]
    ensures !Accepted(d, Run(d, Empty, steps).log) && |Run(d, Empty, steps).log| == 2
  {
    WakesEmpty(d);
    var s2 := Next(d, Woken(), steps[1]);
    var s3 := Next(d, s2, steps[2]);
    Commit(d, Woken(), body, false, s2);
    NotSeen(d, Woken(), s2, body, other);
    AppendKeepsChainExactly(d, s2, other, Full);
    CommitIs(d, s2.tail.value, s2.log, s2.record, other, Full, Seal(d, other, s2.tail.value.tip).value);
    FourSteps(d, steps, Woken(), s2, s3, Next(d, s3, Crash));
  }

  /** Notes of different turns are different contents, so the window does not stop the second. */
  lemma NotSeen(d: Digest, s: System, t: System, body: Value, other: Value)
    requires Sound(d) && s == Woken() && Fresh(d, s.tail.value, body)
    requires t == Next(d, s, Append(body, StoreUp(Full), false))
    requires body.Obj? && other.Obj? && ContentHash(d, other).Ok? && Seal(d, other, TipOf(t.log)).Ok?
    requires Inv(d, t) && t.tail.Some? && U64Field(body, "turn_id") != U64Field(other, "turn_id")
    ensures Fresh(d, t.tail.value, other)
  {
    assert t.tail.value.seen == Window([] + [ContentHash(d, body).value]);
    SameHashSameTurn(d, body, other);
  }

  lemma SameHashSameTurn(d: Digest, e: Value, f: Value)
    requires Sound(d) && e.Obj? && f.Obj? && ContentHash(d, e).Ok?
    ensures ContentHash(d, e) == ContentHash(d, f) ==> U64Field(e, "turn_id") == U64Field(f, "turn_id")
  {
    var x, y := Content(e), Content(f);
    assert Strip(x) == x && Strip(y) == y;
    assert U64Field(x, "turn_id") == U64Field(e, "turn_id") && U64Field(y, "turn_id") == U64Field(f, "turn_id");
  }

  lemma FourSteps(d: Digest, steps: seq<Step>, s1: System, s2: System, s3: System, s4: System)
    requires |steps| == 4 && s1 == Next(d, Empty, steps[0]) && s2 == Next(d, s1, steps[1])
    requires s3 == Next(d, s2, steps[2]) && s4 == Next(d, s3, steps[3])
    ensures Run(d, Empty, steps) == s4
    ensures Lawful(Empty, steps[0]) && Lawful(s1, steps[1]) && Lawful(s2, steps[2]) && Lawful(s3, steps[3]) ==>
      LawfulRun(d, Empty, steps)
  {
    var a, b, c := steps[1..], steps[1..][1..], steps[1..][1..][1..];
    assert a[0] == steps[1] && b[0] == steps[2] && c[0] == steps[3] && c[1..] == [];
    assert Run(d, s4, []) == s4 && Run(d, s3, c) == s4 && Run(d, s2, b) == s4 && Run(d, s1, a) == s4;
    assert LawfulRun(d, s4, []);
    assert Lawful(s3, steps[3]) ==> LawfulRun(d, s3, c);
    assert Lawful(s3, steps[3]) && Lawful(s2, steps[2]) ==> LawfulRun(d, s2, b);
  }
}
