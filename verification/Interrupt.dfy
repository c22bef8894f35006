/** What an interruption settles: after an abort nothing moves and the committed text stands, and
    how far the crash path (pod/vihs_pod/pipeline/flow.py:172-182) falls short of barge-in. */
module Interrupt {
  import opened Seqs
  import opened Wrappers
  import opened Chunking
  import opened Ledger
  import opened Pipeline
  import opened PipelineSafety

  /** Whatever is tried after an abort in any reachable state, no step is taken; the text it
      committed is a prefix of the input, and a crash found later would commit what was played. */
  lemma AbortSettles(u: Setup, gen: nat, deltas: seq<string>, steps: seq<Step>, playedMs: nat, more: seq<Step>)
    requires Good(u.finder, u.max) && Covers(u.tts) && Runs(u, Start(gen, deltas), steps)
    requires Runs(u, Aborted(Run(u, Start(gen, deltas), steps)), more)
    ensures var s := Run(u, Start(gen, deltas), steps);
      && more == []
      && IsPrefix(AbortText(s, playedMs), Join(deltas))
      && CrashText(Aborted(s)) == Played(s)
  {
    var s := Run(u, Start(gen, deltas), steps);
    SameGeneration(u, Start(gen, deltas), steps);
    CommitsWhatWasHeard(u, gen, deltas, steps, playedMs);
    PrefixThrough(AbortText(s, playedMs), Played(s) + FaceText(s), Join(s.ledger), Join(deltas));
  }

  lemma PrefixThrough(a: string, b: string, c: string, d: string)
    requires IsPrefix(a, b) && IsPrefix(b, c) && IsPrefix(c, d)
    ensures IsPrefix(a, d)
  {}

  lemma {:induction false} SameGeneration(u: Setup, s: State, steps: seq<Step>)
    requires Good(u.finder, u.max) && Runs(u, s, steps)
    ensures Run(u, s, steps).gen == s.gen && Run(u, s, steps).busGen == s.busGen
    decreases |steps|
  {
    if steps != [] { SameGeneration(u, Next(u, s, steps[0]), steps[1..]); }
  }

  // ---------------------------------------------------------------- the crash path

  /** Characters of the chunk on the wire that have been heard. */
  function HeardChars(s: State, playedMs: nat): nat {
    match Partial(s, playedMs) case Some(p) => CommittedChars(p) case None => 0
  }

  lemma PartialIsHeard(r: Reach, s: State, playedMs: nat)
    requires Tags(r, s)
    ensures |PartialText(AsDict(s.ledger), Partial(s, playedMs))| == HeardChars(s, playedMs)
  {
    if s.face.Some? && s.playing {
      var p := Partial(s, playedMs).value;
      DictOfLedger(s.ledger);
      if p.durMs > 0 { CutIsProportional(p, p.(playedMs := p.durMs)); }
      assert CommittedChars(p) <= p.chars;
    }
  }

  /** In every reachable state barge-in commits exactly as many characters more than a crash as
      were heard of the chunk on the wire; so a crash commits what barge-in would if and only if
      nothing is being pushed, or not one character of it was heard yet. */
  lemma CrashFallsShortBy(u: Setup, gen: nat, deltas: seq<string>, steps: seq<Step>, playedMs: nat)
    requires Good(u.finder, u.max) && Covers(u.tts) && Runs(u, Start(gen, deltas), steps)
    ensures var s := Run(u, Start(gen, deltas), steps);
      && |AbortText(s, playedMs)| == |CrashText(s)| + HeardChars(s, playedMs)
      && (AbortText(s, playedMs) == CrashText(s) <==>
          Partial(s, playedMs).None? || CommittedChars(Partial(s, playedMs).value) == 0)
  {
    var s := Run(u, Start(gen, deltas), steps);
    var r := ReachOf(u.tts);
    ReachOfReaches(u.tts);
    StartKeeps(r, gen, deltas);
    RunKeeps(u, r, Start(gen, deltas), steps, Join(deltas));
    PartialIsHeard(r, s, playedMs);
    SameOrLonger(SpansText(AsDict(s.ledger), Spans(s.items)), PartialText(AsDict(s.ledger), Partial(s, playedMs)));
  }

  lemma SameOrLonger(spans: string, partial: string)
    ensures spans + partial == spans + "" <==> |partial| == 0
  {
    if |partial| > 0 { assert |spans + partial| > |spans + ""|; }
  }

  // ---------------------------------------------------------------- a text heard and lost

  /** The TTS of the mock stages: one chunk per clause, its length proportional to the text. */
  function OneChunk(msPerChar: nat): string -> seq<Chunk> {
    (text: string) => if text == "" then [] else [Chunk(|text|, |text| * msPerChar)]
  }

  /** It meets the contract that INV-1 relies on. */
  lemma OneChunkCovers(msPerChar: nat)
    ensures Covers(OneChunk(msPerChar))
  {
    forall text ensures Total(OneChunk(msPerChar)(text)) == |text| {
      if text != "" {
        var chunks := OneChunk(msPerChar)(text);
        assert chunks[0].chars == |text| && chunks[1..] == [];
      }
    }
  }

  lemma OneStep(u: Setup, s: State, x: Step, t: State, rest: seq<Step>)
    requires Good(u.finder, u.max) && Enabled(s, x) && t == Next(u, s, x) && Runs(u, t, rest)
    ensures Runs(u, s, [x] + rest) && Run(u, s, [x] + rest) == Run(u, t, rest)
  {
    assert ([x] + rest)[1..] == rest;
  }

  /** The text numbered as clause 1 and put in the queue. */
  function Queued(gen: nat, text: string): State {
    Start(gen, []).(brain := Draining, ledger := [text], clauses := [ClauseItem(1, text)])
  }

  function OnTheWire(gen: nat, text: string, chunk: Chunk): State {
    Start(gen, []).(brain := Draining, ledger := [text], current := Some(Current(1, text, |text|, [])),
      face := Some(Tagged(chunk, 1, 0, |text|, text)), playing := true)
  }

  function InAudioQueue(gen: nat, text: string, chunk: Chunk): State {
    OnTheWire(gen, text, chunk).(face := None, playing := false, audio := [AudioItem(Tagged(chunk, 1, 0, |text|,
        text))])
  }

  lemma ToQueue(u: Setup, gen: nat, text: string, rest: seq<Step>) returns (steps: seq<Step>)
    requires Good(u.finder, u.max) && text != "" && u.finder(text).None? && Runs(u, Queued(gen, text), rest)
    ensures Runs(u, Start(gen, [text]), steps) && Run(u, Start(gen, [text]), steps) == Run(u, Queued(gen, text), rest)
  {
    assert "" + text == text && Cut(u.finder, u.max, text) == ([], text);
    assert [text][1..] == [] && [] + [text] == [text];
    var s0 := Start(gen, [text]);
    var s1 := Start(gen, []).(buf := text);
    var s2 := Start(gen, []).(brain := Draining, pending := [text]);
    var s3 := Start(gen, []).(brain := Draining, ledger := [text], putting := Some(ClauseItem(1, text)));
    steps := [BrainPut] + rest;
    OneStep(u, s3, BrainPut, Queued(gen, text), rest);
    OneStep(u, s2, BrainNumber, s3, steps);
    steps := [BrainNumber] + steps;
    OneStep(u, s1, BrainFlush, s2, steps);
    steps := [BrainFlush] + steps;
    OneStep(u, s0, BrainFeed, s1, steps);
    steps := [BrainFeed] + steps;
  }

  lemma ToAudio(u: Setup, gen: nat, text: string, chunk: Chunk, rest: seq<Step>) returns (steps: seq<Step>)
    requires Good(u.finder, u.max) && text != "" && u.tts(text) == [chunk] && chunk.chars == |text|
    requires Runs(u, InAudioQueue(gen, text, chunk), rest)
    ensures Runs(u, Queued(gen, text), steps)
    ensures Run(u, Queued(gen, text), steps) == Run(u, InAudioQueue(gen, text, chunk), rest)
  {
    assert [ClauseItem(1, text)][1..] == [] && [chunk][1..] == [] && Slice(text, 0, |text|) == text;
    var s0 := Queued(gen, text);
    var s1 := s0.(clauses := [], current := Some(Current(1, text, 0, [chunk])));
    var s2 := s0.(clauses := [], current := Some(Current(1, text, |text|, [])),
                  voicePut := Some(AudioItem(Tagged(chunk, 1, 0, |text|, text))));
    steps := [VoicePut] + rest;
    OneStep(u, s2, VoicePut, InAudioQueue(gen, text, chunk), rest);
    OneStep(u, s1, VoiceNext, s2, steps);
    steps := [VoiceNext] + steps;
    OneStep(u, s0, VoiceTake, s1, steps);
    steps := [VoiceTake] + steps;
  }

  lemma ToWire(u: Setup, gen: nat, text: string, chunk: Chunk) returns (steps: seq<Step>)
    requires Good(u.finder, u.max)
    ensures Runs(u, InAudioQueue(gen, text, chunk), steps)
    ensures Run(u, InAudioQueue(gen, text, chunk), steps) == OnTheWire(gen, text, chunk)
  {
    var s0 := InAudioQueue(gen, text, chunk);
    assert s0.audio[1..] == [];
    var s1 := OnTheWire(gen, text, chunk).(playing := false);
    OneStep(u, s1, FacePlay, OnTheWire(gen, text, chunk), []);
    OneStep(u, s0, FaceTake, s1, [FacePlay] + []);
    steps := [FaceTake] + ([FacePlay] + []);
  }

  lemma HeardInFull(gen: nat, text: string, chunk: Chunk)
    requires text != "" && chunk.chars == |text| && chunk.durMs >= 1
    ensures AbortText(OnTheWire(gen, text, chunk), chunk.durMs) == text && CrashText(OnTheWire(gen, text, chunk)) == ""
  {
    var s := OnTheWire(gen, text, chunk);
    var p := Partial(s, chunk.durMs).value;
    CutIsProportional(p, p);
    DictOfLedger([text]);
    assert AsDict([text]) == map[1 := text] by { assert [text][..0] == []; }
    assert Slice(text, 0, |text|) == text && "" + text == text;
  }

  /** Every text the chunker keeps whole: there is a run in which all of it has been heard, and
      then barge-in commits all of it and a crash nothing. */
  lemma CrashLosesHeardText(f: Finder, max: nat, msPerChar: nat, gen: nat, text: string)
    requires Good(f, max) && text != "" && f(text).None? && msPerChar >= 1
    ensures var u := Setup(f, max, OneChunk(msPerChar));
      exists steps :: Runs(u, Start(gen, [text]), steps)
        && AbortText(Run(u, Start(gen, [text]), steps), |text| * msPerChar) == text
        && CrashText(Run(u, Start(gen, [text]), steps)) == ""
  {
    var u := Setup(f, max, OneChunk(msPerChar));
    var steps := ReachPlaying(u, gen, text, Chunk(|text|, |text| * msPerChar));
    MulMonotone(|text|, 1, msPerChar);
    HeardInFull(gen, text, Chunk(|text|, |text| * msPerChar));
  }

  lemma ReachPlaying(u: Setup, gen: nat, text: string, chunk: Chunk) returns (steps: seq<Step>)
    requires Good(u.finder, u.max) && text != "" && u.finder(text).None?
    requires u.tts(text) == [chunk] && chunk.chars == |text|
    ensures Runs(u, Start(gen, [text]), steps) && Run(u, Start(gen, [text]), steps) == OnTheWire(gen, text, chunk)
  {
    steps := ToWire(u, gen, text, chunk);
    steps := ToAudio(u, gen, text, chunk, steps);
    steps := ToQueue(u, gen, text, steps);
  }
}
