/** Deadlock freedom and termination of the response stages: an end marker follows the last
    clause through both queues, some stage can always move until face is done, and every
    schedule takes exactly the same number of steps. */
module PipelineProgress {
  import opened Wrappers
  import opened Chunking
  import opened Pipeline
  import opened PipelineSafety

  // ---------------------------------------------------------------- where the end marker is

  predicate ClausesOrdered(q: seq<ClauseItem>, ended: bool) {
    && (forall i | 0 <= i < |q| - 1 :: q[i].ClauseItem?)
    && (ended <==> q != [] && q[|q| - 1].ClauseEnd?)
  }

  predicate AudioOrdered(q: seq<AudioItem>, ended: bool) {
    && (forall i | 0 <= i < |q| - 1 :: q[i].AudioItem?)
    && (ended <==> q != [] && q[|q| - 1].AudioEnd?)
  }

  predicate Ordered(s: State) {
    && s.gen == s.busGen
    && |s.clauses| <= CLAUSE_SLOTS && |s.audio| <= AUDIO_SLOTS
    && (!s.brain.Streaming? ==> s.deltas == [] && s.buf == "")
    && (s.brain.BrainDone? ==> s.pending == [] && s.putting.None?)
    && (s.putting == Some(ClauseEnd) ==> s.brain.Draining? && s.pending == [])
    && ClausesOrdered(s.clauses, s.brain.BrainDone? && s.voice.Voicing?)
    && (!s.voice.Voicing? ==> s.brain.BrainDone? && s.clauses == [] && s.current.None?)
    && (s.voice.Ending? <==> s.voicePut == Some(AudioEnd))
    && (s.voice.VoiceDone? ==> s.voicePut.None?)
    && AudioOrdered(s.audio, s.voice.VoiceDone? && !s.faceDone)
    && (s.faceDone ==> s.voice.VoiceDone? && s.audio == [] && s.face.None?)
    && (s.playing ==> s.face.Some?)
  }

  lemma StartOrdered(gen: nat, deltas: seq<string>)
    ensures Ordered(Start(gen, deltas))
  {}

  predicate IsBrain(step: Step) {
    step.BrainFeed? || step.BrainFlush? || step.BrainNumber? || step.BrainEnd? || step.BrainPut?
  }

  lemma BrainOrdered(u: Setup, s: State, step: Step)
    requires Good(u.finder, u.max) && Ordered(s) && Enabled(s, step) && IsBrain(step)
    ensures Ordered(Next(u, s, step))
  {}

  lemma VoiceOrdered(u: Setup, s: State, step: Step)
    requires Good(u.finder, u.max) && Ordered(s) && Enabled(s, step)
    requires step.VoiceTake? || step.VoiceNext? || step.VoiceClauseDone? || step.VoicePut?
    ensures Ordered(Next(u, s, step))
  {}

  lemma FaceOrdered(u: Setup, s: State, step: Step)
    requires Good(u.finder, u.max) && Ordered(s) && Enabled(s, step)
    requires step.FaceTake? || step.FacePlay? || step.FacePlayed?
    ensures Ordered(Next(u, s, step))
  {}

  lemma StepOrdered(u: Setup, s: State, step: Step)
    requires Good(u.finder, u.max) && Ordered(s) && Enabled(s, step)
    ensures Ordered(Next(u, s, step))
  {
    if IsBrain(step) {
      BrainOrdered(u, s, step);
    } else if step.FaceTake? || step.FacePlay? || step.FacePlayed? {
      FaceOrdered(u, s, step);
    } else {
      VoiceOrdered(u, s, step);
    }
  }

  /** No deadlock: until face has seen the end marker, some stage can move. */
  lemma SomeStepEnabled(s: State) returns (step: Step)
    requires Ordered(s) && !s.faceDone
    ensures Enabled(s, step)
  {
    if s.face.Some? {
      step := if s.playing then FacePlayed else FacePlay;
    } else if s.audio != [] {
      step := FaceTake;
    } else if s.voicePut.Some? {
      step := VoicePut;
    } else if s.current.Some? {
      step := if s.current.value.chunks == [] then VoiceClauseDone else VoiceNext;
    } else if s.clauses != [] {
      step := VoiceTake;
    } else if s.putting.Some? {
      step := BrainPut;
    } else if s.pending != [] {
      step := BrainNumber;
    } else if s.brain.Streaming? {
      step := if s.deltas != [] then BrainFeed else BrainFlush;
    } else {
      step := BrainEnd;
    }
  }

  // ---------------------------------------------------------------- how much work is left

  /** Steps a clause still costs once it is in the clause queue. */
  function ClauseWork(u: Setup, text: string): nat { 2 + 5 * |u.tts(text)| }

  function QueueWork(u: Setup, q: seq<ClauseItem>): nat {
    if q == [] then 0 else ItemWork(u, q[0]) + QueueWork(u, q[1..])
  }

  function ItemWork(u: Setup, x: ClauseItem): nat {
    match x case ClauseItem(_, text) => ClauseWork(u, text) case ClauseEnd => 3
  }

  function AudioWork(q: seq<AudioItem>): nat {
    if q == [] then 0 else (if q[0].AudioItem? then 3 else 1) + AudioWork(q[1..])
  }

  /** Steps the clauses still to be numbered cost. */
  function TextsWork(u: Setup, texts: seq<string>): nat {
    if texts == [] then 0 else 2 + ClauseWork(u, texts[0]) + TextsWork(u, texts[1..])
  }

  function BrainWork(u: Setup, s: State): nat
    requires Good(u.finder, u.max)
  {
    (if s.brain.Streaming? then 1 + |s.deltas| + TextsWork(u, Clauses(u.finder, u.max, s.buf, s.deltas)) else 0)
    + TextsWork(u, s.pending)
    + (match s.putting case None => 0 case Some(x) => 1 + ItemWork(u, x))
    + (if s.brain.BrainDone? || s.putting == Some(ClauseEnd) then 0 else 5)
  }

  function VoiceWork(s: State): nat {
    (match s.current case None => 0 case Some(c) => 1 + 5 * |c.chunks|)
    + (match s.voicePut case None => 0 case Some(x) => if x.AudioItem? then 4 else 2)
  }

  function FaceWork(s: State): nat { if s.face.None? then 0 else if s.playing then 1 else 2 }

  function Work(u: Setup, s: State): nat
    requires Good(u.finder, u.max)
  {
    BrainWork(u, s) + QueueWork(u, s.clauses) + VoiceWork(s) + AudioWork(s.audio) + FaceWork(s)
  }

  lemma {:induction false} TextsWorkConcat(u: Setup, a: seq<string>, b: seq<string>)
    ensures TextsWork(u, a + b) == TextsWork(u, a) + TextsWork(u, b)
  {
    if a == [] {
      assert a + b == b;
    } else {
      assert (a + b)[1..] == a[1..] + b;
      TextsWorkConcat(u, a[1..], b);
    }
  }

  lemma {:induction false} QueueWorkSnoc(u: Setup, q: seq<ClauseItem>, x: ClauseItem)
    ensures QueueWork(u, q + [x]) == QueueWork(u, q) + ItemWork(u, x)
  {
    if q != [] {
      assert (q + [x])[1..] == q[1..] + [x];
      QueueWorkSnoc(u, q[1..], x);
    }
  }

  lemma {:induction false} AudioWorkSnoc(q: seq<AudioItem>, x: AudioItem)
    ensures AudioWork(q + [x]) == AudioWork(q) + if x.AudioItem? then 3 else 1
  {
    if q != [] {
      assert (q + [x])[1..] == q[1..] + [x];
      AudioWorkSnoc(q[1..], x);
    }
  }

  lemma FeedUsesOne(u: Setup, s: State)
    requires Good(u.finder, u.max) && Enabled(s, BrainFeed)
    ensures BrainWork(u, Next(u, s, BrainFeed)) == BrainWork(u, s) - 1
  {
    var (out, rest) := Cut(u.finder, u.max, s.buf + s.deltas[0]);
    TextsWorkConcat(u, out, Clauses(u.finder, u.max, rest, s.deltas[1..]));
  }

  lemma FlushUsesOne(u: Setup, s: State)
    requires Good(u.finder, u.max) && Enabled(s, BrainFlush)
    ensures BrainWork(u, Next(u, s, BrainFlush)) == BrainWork(u, s) - 1
  {}

  lemma NumberUsesOne(u: Setup, s: State)
    requires Good(u.finder, u.max) && Ordered(s) && Enabled(s, BrainNumber)
    ensures BrainWork(u, Next(u, s, BrainNumber)) == BrainWork(u, s) - 1
  {
    assert TextsWork(u, s.pending) == 2 + ClauseWork(u, s.pending[0]) + TextsWork(u, s.pending[1..]);
  }

  lemma PutUsesOne(u: Setup, s: State)
    requires Good(u.finder, u.max) && Ordered(s) && Enabled(s, BrainPut)
    ensures var t := Next(u, s, BrainPut);
      BrainWork(u, t) + QueueWork(u, t.clauses) == BrainWork(u, s) + QueueWork(u, s.clauses) - 1
  {
    QueueWorkSnoc(u, s.clauses, s.putting.value);
  }

  lemma BrainUsesOne(u: Setup, s: State, step: Step)
    requires Good(u.finder, u.max) && Ordered(s) && Enabled(s, step)
    requires IsBrain(step)
    ensures Work(u, Next(u, s, step)) == Work(u, s) - 1
  {
    match step
    case BrainFeed => FeedUsesOne(u, s);
    case BrainFlush => FlushUsesOne(u, s);
    case BrainNumber => NumberUsesOne(u, s);
    case BrainPut => PutUsesOne(u, s);
    case BrainEnd =>
  }

  /** The brain's work depends on its own fields only. */
  function BrainsOwn(s: State): (Brain, seq<string>, string, seq<string>, Option<ClauseItem>) {
    (s.brain, s.deltas, s.buf, s.pending, s.putting)
  }

  lemma BrainUntouched(u: Setup, s: State, step: Step)
    requires Good(u.finder, u.max) && Enabled(s, step) && !IsBrain(step)
    ensures BrainsOwn(Next(u, s, step)) == BrainsOwn(s)
  {}

  lemma SameBrainWork(u: Setup, s: State, t: State)
    requires Good(u.finder, u.max) && BrainsOwn(s) == BrainsOwn(t)
    ensures BrainWork(u, s) == BrainWork(u, t)
  {}

  lemma BrainWaits(u: Setup, s: State, step: Step)
    requires Good(u.finder, u.max) && Enabled(s, step) && !IsBrain(step)
    ensures BrainWork(u, Next(u, s, step)) == BrainWork(u, s)
  {
    BrainUntouched(u, s, step);
    SameBrainWork(u, s, Next(u, s, step));
  }

  function LineWork(u: Setup, s: State): nat {
    QueueWork(u, s.clauses) + VoiceWork(s) + AudioWork(s.audio) + FaceWork(s)
  }

  lemma TakeUsesOne(u: Setup, s: State)
    requires Good(u.finder, u.max) && Ordered(s) && Enabled(s, VoiceTake)
    ensures LineWork(u, Next(u, s, VoiceTake)) == LineWork(u, s) - 1
  {
    assert QueueWork(u, s.clauses) == ItemWork(u, s.clauses[0]) + QueueWork(u, s.clauses[1..]);
  }

  lemma VoiceUsesOne(u: Setup, s: State, step: Step)
    requires Good(u.finder, u.max) && Ordered(s) && Enabled(s, step)
    requires step.VoiceNext? || step.VoiceClauseDone?
    ensures LineWork(u, Next(u, s, step)) == LineWork(u, s) - 1
  {}

  lemma VoicePutUsesOne(u: Setup, s: State)
    requires Good(u.finder, u.max) && Ordered(s) && Enabled(s, VoicePut)
    ensures LineWork(u, Next(u, s, VoicePut)) == LineWork(u, s) - 1
  {
    AudioWorkSnoc(s.audio, s.voicePut.value);
  }

  lemma FaceUsesOne(u: Setup, s: State, step: Step)
    requires Good(u.finder, u.max) && Ordered(s) && Enabled(s, step)
    requires step.FaceTake? || step.FacePlay? || step.FacePlayed?
    ensures LineWork(u, Next(u, s, step)) == LineWork(u, s) - 1
  {}

  /** Every step, whichever stage takes it, uses up exactly one unit of the work left. */
  lemma StepUsesOne(u: Setup, s: State, step: Step)
    requires Good(u.finder, u.max) && Ordered(s) && Enabled(s, step)
    ensures Work(u, Next(u, s, step)) == Work(u, s) - 1
  {
    if IsBrain(step) {
      BrainUsesOne(u, s, step);
    } else {
      BrainWaits(u, s, step);
      match step
      case VoiceTake => TakeUsesOne(u, s);
      case VoicePut => VoicePutUsesOne(u, s);
      case VoiceNext => VoiceUsesOne(u, s, step);
      case VoiceClauseDone => VoiceUsesOne(u, s, step);
      case _ => FaceUsesOne(u, s, step);
    }
  }

  lemma DoneMeansNoWork(u: Setup, s: State)
    requires Good(u.finder, u.max) && Ordered(s)
    ensures s.faceDone <==> Work(u, s) == 0
  {
    if !s.faceDone {
      var step := SomeStepEnabled(s);
      StepUsesOne(u, s, step);
    }
  }

  lemma {:induction false} RunUses(u: Setup, s: State, steps: seq<Step>)
    requires Good(u.finder, u.max) && Ordered(s) && Runs(u, s, steps)
    ensures Ordered(Run(u, s, steps))
    ensures Work(u, Run(u, s, steps)) + |steps| == Work(u, s)
    decreases |steps|
  {
    if steps != [] {
      StepOrdered(u, s, steps[0]);
      StepUsesOne(u, s, steps[0]);
      RunUses(u, Next(u, s, steps[0]), steps[1..]);
    }
  }

  /** Termination: a response never takes more steps than its work, it is finished exactly when
      it has taken that many, and until then some stage can move. */
  lemma EveryScheduleTerminates(u: Setup, gen: nat, deltas: seq<string>, steps: seq<Step>)
    requires Good(u.finder, u.max) && Runs(u, Start(gen, deltas), steps)
    ensures var s := Run(u, Start(gen, deltas), steps);
      && |steps| <= Work(u, Start(gen, deltas))
      && (s.faceDone <==> |steps| == Work(u, Start(gen, deltas)))
      && (!s.faceDone ==> exists step :: Enabled(s, step))
  {
    StartOrdered(gen, deltas);
    RunUses(u, Start(gen, deltas), steps);
    var s := Run(u, Start(gen, deltas), steps);
    DoneMeansNoWork(u, s);
    if !s.faceDone { var step := SomeStepEnabled(s); }
  }

  /** A response that finishes without abort commits exactly the text fed to the chunker, and
      its ledger is the chunker's clause list. */
  lemma FinishedCommitsAll(u: Setup, gen: nat, deltas: seq<string>, steps: seq<Step>)
    requires Good(u.finder, u.max) && Covers(u.tts) && Runs(u, Start(gen, deltas), steps)
    requires Run(u, Start(gen, deltas), steps).faceDone
    ensures CrashText(Run(u, Start(gen, deltas), steps)) == Join(deltas)
    ensures Run(u, Start(gen, deltas), steps).ledger == Clauses(u.finder, u.max, "", deltas)
  {
    var start := Start(gen, deltas);
    var r := ReachOf(u.tts);
    ReachOfReaches(u.tts);
    StartKeeps(r, gen, deltas);
    RunKeeps(u, r, start, steps, Join(deltas));
    StartOrdered(gen, deltas);
    RunUses(u, start, steps);
    DoneCommitsAll(r, Run(u, start, steps), Join(deltas));
    RunNumbers(u, start, steps);
    DoneNumbersAll(u, Run(u, start, steps));
    assert AllClauses(u, start) == Clauses(u.finder, u.max, "", deltas);
  }

  lemma DoneCommitsAll(r: Reach, s: State, whole: string)
    requires (forall text :: r(text) == |text|) && Ordered(s) && s.faceDone && Inv(r, s, whole)
    ensures CrashText(s) == whole
  {
    CommittedPrefixes(r, s, 0, whole);
    CoveredParts(r, s.ledger);
    EmptyWhenDone(r, s);
    assert Played(s) + "" == Played(s);
    assert Join(s.ledger) + "" == Join(s.ledger);
  }

  lemma DoneNumbersAll(u: Setup, s: State)
    requires Good(u.finder, u.max) && Ordered(s) && s.faceDone
    ensures AllClauses(u, s) == s.ledger
  {}

  lemma EmptyWhenDone(r: Reach, s: State)
    requires Ordered(s) && s.faceDone
    ensures Unplayed(r, s) == "" && Unnumbered(s) == "" && !s.brain.Streaming? && s.pending == []
  {}

  /** The clauses numbered so far, then those to come, are the chunker's clause list. */
  function AllClauses(u: Setup, s: State): seq<string>
    requires Good(u.finder, u.max)
  {
    s.ledger + (s.pending + if s.brain.Streaming? then Clauses(u.finder, u.max, s.buf, s.deltas) else [])
  }

  lemma MoveOne(ledger: seq<string>, pending: seq<string>, later: seq<string>)
    requires pending != []
    ensures (ledger + [pending[0]]) + (pending[1..] + later) == ledger + (pending + later)
  {}

  lemma StepNumbers(u: Setup, s: State, step: Step)
    requires Good(u.finder, u.max) && Ordered(s) && Enabled(s, step)
    ensures AllClauses(u, Next(u, s, step)) == AllClauses(u, s)
  {
    if step.BrainNumber? {
      MoveOne(s.ledger, s.pending, if s.brain.Streaming? then Clauses(u.finder, u.max, s.buf, s.deltas) else []);
    } else if step.BrainFeed? {
      FeedNumbers(u, s);
    } else if step.BrainFlush? {
      FlushNumbers(u, s);
    }
  }

  lemma FlushNumbers(u: Setup, s: State)
    requires Good(u.finder, u.max) && Enabled(s, BrainFlush)
    ensures AllClauses(u, Next(u, s, BrainFlush)) == AllClauses(u, s)
  {
    assert Clauses(u.finder, u.max, s.buf, s.deltas) == Flushed(s.buf);
    assert Flushed(s.buf) + [] == [] + Flushed(s.buf);
  }

  lemma FeedNumbers(u: Setup, s: State)
    requires Good(u.finder, u.max) && Enabled(s, BrainFeed)
    ensures AllClauses(u, Next(u, s, BrainFeed)) == AllClauses(u, s)
  {
    var (out, rest) := Cut(u.finder, u.max, s.buf + s.deltas[0]);
    var later := Clauses(u.finder, u.max, rest, s.deltas[1..]);
    assert Clauses(u.finder, u.max, s.buf, s.deltas) == out + later;
    assert [] + (out + later) == out + later;
  }

  lemma {:induction false} RunNumbers(u: Setup, s: State, steps: seq<Step>)
    requires Good(u.finder, u.max) && Ordered(s) && Runs(u, s, steps)
    ensures AllClauses(u, Run(u, s, steps)) == AllClauses(u, s)
    decreases |steps|
  {
    if steps != [] {
      StepOrdered(u, s, steps[0]);
      StepNumbers(u, s, steps[0]);
      RunNumbers(u, Next(u, s, steps[0]), steps[1..]);
    }
  }
}
