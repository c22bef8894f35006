/** One response as the object the stages share (pod/vihs_pod/pipeline/flow.py): each stage
    moves to its next await in place, barge-in can strike between any two moves. */
module Response {
  import opened Wrappers
  import opened Chunking
  import opened Ledger
  import opened Pipeline
  import opened PipelineSafety
  import opened PipelineProgress

  predicate IsVoice(x: Step) { x.VoiceTake? || x.VoiceNext? || x.VoiceClauseDone? || x.VoicePut? }
  predicate IsFace(x: Step) { x.FaceTake? || x.FacePlay? || x.FacePlayed? }

  /** The one step a stage can take, if any. */
  function BrainReady(s: State): Option<Step> {
    if s.gen != s.busGen then None
    else if s.putting.Some? then (if |s.clauses| < CLAUSE_SLOTS then Some(BrainPut) else None)
    else if s.pending != [] then Some(BrainNumber)
    else match s.brain
      case Streaming => Some(if s.deltas == [] then BrainFlush else BrainFeed)
      case Draining => Some(BrainEnd)
      case BrainDone => None
  }

  function VoiceReady(s: State): Option<Step> {
    if s.gen != s.busGen then None
    else if s.voicePut.Some? then (if |s.audio| < AUDIO_SLOTS then Some(VoicePut) else None)
    else if s.current.Some? then Some(if s.current.value.chunks == [] then VoiceClauseDone else VoiceNext)
    else if s.voice.Voicing? && s.clauses != [] then Some(VoiceTake)
    else None
  }

  function FaceReady(s: State): Option<Step> {
    if s.gen != s.busGen then None
    else if s.face.Some? then Some(if s.playing then FacePlayed else FacePlay)
    else if !s.faceDone && s.audio != [] then Some(FaceTake)
    else None
  }

  /** Each stage is sequential: it is ready for exactly the steps of its that are enabled. */
  lemma StagesAreSequential(s: State, x: Step)
    requires Ordered(s)
    ensures IsBrain(x) ==> (Enabled(s, x) <==> BrainReady(s) == Some(x))
    ensures IsVoice(x) ==> (Enabled(s, x) <==> VoiceReady(s) == Some(x))
    ensures IsFace(x) ==> (Enabled(s, x) <==> FaceReady(s) == Some(x))
  {}

  lemma ReadyIsEnabled(s: State)
    ensures BrainReady(s).Some? ==> Enabled(s, BrainReady(s).value)
    ensures VoiceReady(s).Some? ==> Enabled(s, VoiceReady(s).value)
    ensures FaceReady(s).Some? ==> Enabled(s, FaceReady(s).value)
  {}

  function Taken(u: Setup, s: State, step: Option<Step>): State
    requires Good(u.finder, u.max) && (step.Some? ==> Enabled(s, step.value))
  {
    match step case None => s case Some(x) => Next(u, s, x)
  }

  class Response {
    const u: Setup
    const gen: nat
    var busGen: nat
    var deltas: seq<string>
    var buf: string
    var pending: seq<string>
    var ledger: seq<string>
    var brain: Brain
    var putting: Option<ClauseItem>
    var clauses: seq<ClauseItem>
    var current: Option<Current>
    var voice: Voice
    var voicePut: Option<AudioItem>
    var audio: seq<AudioItem>
    var face: Option<Tagged>
    var playing: bool
    var items: seq<Tagged>
    var faceDone: bool

    constructor (u: Setup, gen: nat, stream: seq<string>)
      ensures this.u == u && View() == Start(gen, stream)
    {
      this.u, this.gen, busGen := u, gen, gen;
      deltas, buf, pending, ledger, brain, putting := stream, "", [], [], Streaming, None;
      clauses, current, voice, voicePut, audio := [], None, Voicing, None, [];
      face, playing, items, faceDone := None, false, [], false;
    }

    function View(): State reads this {
      State(gen, busGen, deltas, buf, pending, ledger, brain, putting, clauses, current, voice, voicePut,
        audio, face, playing, items, faceDone)
    }

    method ReadDelta()
      requires Good(u.finder, u.max) && Enabled(View(), BrainFeed)
      modifies this
      ensures View() == Next(u, old(View()), BrainFeed)
    {
      var (out, rest) := Cut(u.finder, u.max, buf + deltas[0]);
      pending, buf, deltas := out, rest, deltas[1..];
    }

    method FlushChunker()
      requires Good(u.finder, u.max) && Enabled(View(), BrainFlush)
      modifies this
      ensures View() == Next(u, old(View()), BrainFlush)
    {
      pending, buf, brain := Flushed(buf), "", Draining;
    }

    method NumberClause()
      requires Good(u.finder, u.max) && Enabled(View(), BrainNumber)
      modifies this
      ensures View() == Next(u, old(View()), BrainNumber)
    {
      var text := pending[0];
      ledger := ledger + [text];
      putting, pending := Some(ClauseItem(|ledger|, text)), pending[1..];
    }

    method EndClauses()
      requires Good(u.finder, u.max) && Enabled(View(), BrainEnd)
      modifies this
      ensures View() == Next(u, old(View()), BrainEnd)
    {
      putting := Some(ClauseEnd);
    }

    method PutClause()
      requires Good(u.finder, u.max) && Enabled(View(), BrainPut)
      modifies this
      ensures View() == Next(u, old(View()), BrainPut)
    {
      if putting.value.ClauseEnd? { brain := BrainDone; }
      clauses, putting := clauses + [putting.value], None;
    }

    method TakeClause()
      requires Good(u.finder, u.max) && Enabled(View(), VoiceTake)
      modifies this
      ensures View() == Next(u, old(View()), VoiceTake)
    {
      var head := clauses[0];
      clauses := clauses[1..];
      match head {
        case ClauseEnd => voice, voicePut := Ending, Some(AudioEnd);
        case ClauseItem(id, text) => current := Some(Current(id, text, 0, u.tts(text)));
      }
    }

    method NextChunk()
      requires Good(u.finder, u.max) && Enabled(View(), VoiceNext)
      modifies this
      ensures View() == Next(u, old(View()), VoiceNext)
    {
      var c := current.value;
      var end := c.start + c.chunks[0].chars;
      voicePut := Some(AudioItem(Tagged(c.chunks[0], c.id, c.start, end, Slice(c.text, c.start, end))));
      current := Some(Current(c.id, c.text, end, c.chunks[1..]));
    }

    method FinishClause()
      requires Good(u.finder, u.max) && Enabled(View(), VoiceClauseDone)
      modifies this
      ensures View() == Next(u, old(View()), VoiceClauseDone)
    {
      current := None;
    }

    method PutChunk()
      requires Good(u.finder, u.max) && Enabled(View(), VoicePut)
      modifies this
      ensures View() == Next(u, old(View()), VoicePut)
    {
      if voicePut.value.AudioEnd? { voice := VoiceDone; }
      audio, voicePut := audio + [voicePut.value], None;
    }

    method TakeChunk()
      requires Good(u.finder, u.max) && Enabled(View(), FaceTake)
      modifies this
      ensures View() == Next(u, old(View()), FaceTake)
    {
      var head := audio[0];
      audio := audio[1..];
      match head {
        case AudioEnd => faceDone := true;
        case AudioItem(tagged) => face, playing := Some(tagged), false;
      }
    }

    /** The playback monitor's chunk is current only while it is pushed. */
    method StartPush()
      requires Good(u.finder, u.max) && Enabled(View(), FacePlay)
      modifies this
      ensures View() == Next(u, old(View()), FacePlay)
    {
      playing := true;
    }

    method EndPush()
      requires Good(u.finder, u.max) && Enabled(View(), FacePlayed)
      modifies this
      ensures View() == Next(u, old(View()), FacePlayed)
    {
      items, face, playing := items + [face.value], None, false;
    }

    /** The brain up to its next await; None if it cannot move. */
    method BrainMoves() returns (step: Option<Step>)
      requires Good(u.finder, u.max)
      modifies this
      ensures step == BrainReady(old(View())) && (step.Some? ==> Enabled(old(View()), step.value))
      ensures View() == Taken(u, old(View()), step)
    {
      ReadyIsEnabled(View());
      step := BrainReady(View());
      match step {
        case Some(BrainFeed) => ReadDelta();
        case Some(BrainFlush) => FlushChunker();
        case Some(BrainNumber) => NumberClause();
        case Some(BrainEnd) => EndClauses();
        case Some(BrainPut) => PutClause();
        case _ =>
      }
    }

    method VoiceMoves() returns (step: Option<Step>)
      requires Good(u.finder, u.max)
      modifies this
      ensures step == VoiceReady(old(View())) && (step.Some? ==> Enabled(old(View()), step.value))
      ensures View() == Taken(u, old(View()), step)
    {
      ReadyIsEnabled(View());
      step := VoiceReady(View());
      match step {
        case Some(VoiceTake) => TakeClause();
        case Some(VoiceNext) => NextChunk();
        case Some(VoiceClauseDone) => FinishClause();
        case Some(VoicePut) => PutChunk();
        case _ =>
      }
    }

    method FaceMoves() returns (step: Option<Step>)
      requires Good(u.finder, u.max)
      modifies this
      ensures step == FaceReady(old(View())) && (step.Some? ==> Enabled(old(View()), step.value))
      ensures View() == Taken(u, old(View()), step)
    {
      ReadyIsEnabled(View());
      step := FaceReady(View());
      match step {
        case Some(FaceTake) => TakeChunk();
        case Some(FacePlay) => StartPush();
        case Some(FacePlayed) => EndPush();
        case _ =>
      }
    }

    method Cancel()
      modifies this
      ensures View() == Aborted(old(View()))
    {
      busGen, face, playing := busGen + 1, None, false;
    }

    method Resolve(partial: Option<PartialChunk>) returns (text: string)
      ensures text == SpansText(AsDict(ledger), Spans(items)) + PartialText(AsDict(ledger), partial)
    {
      text := CommittedText(AsDict(ledger), Spans(items), partial);
    }

    /** Barge-in: the partial first, then the generation and the cancellation, then the text. */
    method BargeIn(playedMs: nat) returns (text: string)
      modifies this
      ensures text == AbortText(old(View()), playedMs) && View() == Aborted(old(View()))
    {
      var partial := Partial(View(), playedMs);
      Cancel();
      text := Resolve(partial);
    }

    /** A stage crashed: the cancellation clears the monitor before the partial is read. */
    method Crash(playedMs: nat) returns (text: string)
      modifies this
      ensures text == CrashText(old(View())) && View() == Aborted(old(View()))
    {
      Cancel();
      var partial := Partial(View(), playedMs);
      assert partial == None;
      text := Resolve(partial);
    }

    /** Some stage moves, whichever is ready first downstream. */
    method SomeStageMoves()
      requires Good(u.finder, u.max) && Ordered(View()) && !faceDone
      modifies this
      ensures exists x :: Enabled(old(View()), x) && View() == Next(u, old(View()), x)
    {
      var step := FaceMoves();
      if step.None? { step := VoiceMoves(); }
      if step.None? { step := BrainMoves(); }
      if step.None? {
        ghost var x := SomeStepEnabled(View());
        StagesAreSequential(View(), x);
      }
    }

    /** A response nobody interrupts ends, and commits exactly the stream it was given. */
    method RunResponse() returns (text: string)
      requires Good(u.finder, u.max) && Covers(u.tts) && View() == Start(gen, deltas)
      modifies this
      ensures text == Join(old(deltas)) && faceDone
      ensures ledger == Clauses(u.finder, u.max, "", old(deltas))
    {
      ghost var stream, r := deltas, ReachOf(u.tts);
      ReachOfReaches(u.tts);
      StartsRunning(u, r, gen, stream);
      while !faceDone
        invariant Running(u, r, View(), stream)
        decreases Work(u, View())
      {
        ghost var before := View();
        RunningIsOrdered(u, r, before, stream);
        SomeStageMoves();
        ghost var x :| Enabled(before, x) && View() == Next(u, before, x);
        KeepsRunning(u, r, before, x, stream);
      }
      RanToTheEnd(u, r, View(), stream);
      text := CommittedText(AsDict(ledger), Spans(items), None);
    }
  }

  /** What holds while a response runs. */
  ghost predicate Running(u: Setup, r: Reach, s: State, stream: seq<string>)
    requires Good(u.finder, u.max)
  {
    && Inv(r, s, Join(stream)) && Ordered(s)
    && AllClauses(u, s) == Clauses(u.finder, u.max, "", stream)
  }

  lemma StartsRunning(u: Setup, r: Reach, gen: nat, stream: seq<string>)
    requires Good(u.finder, u.max)
    ensures Running(u, r, Start(gen, stream), stream)
  {
    StartKeeps(r, gen, stream);
    StartOrdered(gen, stream);
    assert [] + ([] + Clauses(u.finder, u.max, "", stream)) == Clauses(u.finder, u.max, "", stream);
  }

  lemma RunningIsOrdered(u: Setup, r: Reach, s: State, stream: seq<string>)
    requires Good(u.finder, u.max) && Running(u, r, s, stream)
    ensures Ordered(s)
  {}

  lemma KeepsRunning(u: Setup, r: Reach, s: State, x: Step, stream: seq<string>)
    requires Good(u.finder, u.max) && Reaches(r, u.tts) && Running(u, r, s, stream) && Enabled(s, x)
    ensures Running(u, r, Next(u, s, x), stream) && Work(u, Next(u, s, x)) < Work(u, s)
  {
    StepKeeps(u, r, s, x, Join(stream));
    StepOrdered(u, s, x);
    StepNumbers(u, s, x);
    StepUsesOne(u, s, x);
  }

  lemma RanToTheEnd(u: Setup, r: Reach, s: State, stream: seq<string>)
    requires Good(u.finder, u.max) && (forall text :: r(text) == |text|) && Running(u, r, s, stream) && s.faceDone
    ensures CrashText(s) == Join(stream) && s.ledger == Clauses(u.finder, u.max, "", stream)
  {
    DoneNumbersAll(u, s);
    DoneCommitsAll(r, s, Join(stream));
  }
}
