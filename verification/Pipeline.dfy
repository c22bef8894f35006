/** The three response stages over their bounded queues (pod/vihs_pod/pipeline/flow.py), as a
    step relation: brain feeds the chunker and numbers clauses, voice cuts them into audio
    chunks, face plays the chunks. Abort and crash can strike in any state. */
module Pipeline {
  import opened Seqs
  import opened Wrappers
  import opened Chunking
  import opened Ledger

  const CLAUSE_SLOTS: nat := 4
  const AUDIO_SLOTS: nat := 16

  datatype Chunk = Chunk(chars: nat, durMs: nat)

  /** An audio chunk tagged with the span it covers; `caption` is the text sent with it. */
  datatype Tagged = Tagged(chunk: Chunk, clauseId: nat, start: nat, end: nat, caption: string)

  datatype ClauseItem = ClauseItem(id: nat, text: string) | ClauseEnd
  datatype AudioItem = AudioItem(tagged: Tagged) | AudioEnd

  /** What a response runs with: the chunker and the TTS. */
  datatype Setup = Setup(finder: Finder, max: nat, tts: string -> seq<Chunk>)

  datatype Brain = Streaming | Draining | BrainDone
  datatype Voice = Voicing | Ending | VoiceDone

  /** The clause being voiced: where its next span starts and the chunks still to come. */
  datatype Current = Current(id: nat, text: string, start: nat, chunks: seq<Chunk>)

  /** `ledger[k]` is the text of clause `k + 1`. */
  datatype State = State(
    gen: nat, busGen: nat,
    deltas: seq<string>, buf: string, pending: seq<string>, ledger: seq<string>, brain: Brain,
    putting: Option<ClauseItem>, clauses: seq<ClauseItem>,
    current: Option<Current>, voice: Voice, voicePut: Option<AudioItem>, audio: seq<AudioItem>,
    face: Option<Tagged>, playing: bool, items: seq<Tagged>, faceDone: bool)

  function Start(gen: nat, deltas: seq<string>): State {
    State(gen, gen, deltas, "", [], [], Streaming, None, [], None, Voicing, None, [], None, false, [], false)
  }

  datatype Step =
    | BrainFeed | BrainFlush | BrainNumber | BrainEnd | BrainPut
    | VoiceTake | VoiceNext | VoiceClauseDone | VoicePut
    | FaceTake | FacePlay | FacePlayed

  /** A stage moves only while its generation is the bus's, and a put only into a free slot. */
  predicate Enabled(s: State, step: Step) {
    s.gen == s.busGen &&
    match step
    case BrainFeed => s.brain.Streaming? && s.putting.None? && s.pending == [] && s.deltas != []
    case BrainFlush => s.brain.Streaming? && s.putting.None? && s.pending == [] && s.deltas == []
    case BrainNumber => s.putting.None? && s.pending != []
    case BrainEnd => s.brain.Draining? && s.putting.None? && s.pending == []
    case BrainPut => s.putting.Some? && |s.clauses| < CLAUSE_SLOTS
    case VoiceTake => s.voice.Voicing? && s.current.None? && s.voicePut.None? && s.clauses != []
    case VoiceNext => s.current.Some? && s.voicePut.None? && s.current.value.chunks != []
    case VoiceClauseDone => s.current.Some? && s.voicePut.None? && s.current.value.chunks == []
    case VoicePut => s.voicePut.Some? && |s.audio| < AUDIO_SLOTS
    case FaceTake => !s.faceDone && s.face.None? && s.audio != []
    case FacePlay => s.face.Some? && !s.playing
    case FacePlayed => s.face.Some? && s.playing
  }

  function Next(u: Setup, s: State, step: Step): State
    requires Good(u.finder, u.max) && Enabled(s, step)
  {
    match step
    case BrainFeed =>
      var (out, rest) := Cut(u.finder, u.max, s.buf + s.deltas[0]);
      s.(deltas := s.deltas[1..], buf := rest, pending := out)
    case BrainFlush => s.(brain := Draining, buf := "", pending := Flushed(s.buf))
    case BrainNumber =>
      s.(pending := s.pending[1..], ledger := s.ledger + [s.pending[0]],
         putting := Some(ClauseItem(|s.ledger| + 1, s.pending[0])))
    case BrainEnd => s.(putting := Some(ClauseEnd))
    case BrainPut =>
      s.(putting := None, clauses := s.clauses + [s.putting.value],
         brain := if s.putting.value.ClauseEnd? then BrainDone else s.brain)
    case VoiceTake =>
      var t := s.(clauses := s.clauses[1..]);
      (match s.clauses[0]
       case ClauseEnd => t.(voice := Ending, voicePut := Some(AudioEnd))
       case ClauseItem(id, text) => t.(current := Some(Current(id, text, 0, u.tts(text)))))
    case VoiceNext =>
      var c := s.current.value;
      var end := c.start + c.chunks[0].chars;
      s.(current := Some(c.(start := end, chunks := c.chunks[1..])),
         voicePut := Some(AudioItem(Tagged(c.chunks[0], c.id, c.start, end, Slice(c.text, c.start, end)))))
    case VoiceClauseDone => s.(current := None)
    case VoicePut =>
      s.(voicePut := None, audio := s.audio + [s.voicePut.value],
         voice := if s.voicePut.value.AudioEnd? then VoiceDone else s.voice)
    case FaceTake =>
      var t := s.(audio := s.audio[1..]);
      (match s.audio[0]
       case AudioEnd => t.(faceDone := true)
       case AudioItem(tagged) => t.(face := Some(tagged), playing := false))
    case FacePlay => s.(playing := true)
    case FacePlayed => s.(items := s.items + [s.face.value], face := None, playing := false)
  }

  // ---------------------------------------------------------------- what is committed

  function AsDict(ledger: seq<string>): map<nat, string> {
    if ledger == [] then map[] else AsDict(ledger[..|ledger| - 1])[|ledger| := ledger[|ledger| - 1]]
  }

  function Spans(items: seq<Tagged>): seq<PlayedSpan> {
    seq(|items|, i requires 0 <= i < |items| => PlayedSpan(items[i].clauseId, items[i].start, items[i].end))
  }

  /** The playback monitor's chunk on the wire, with the time played capped by its length. */
  function Partial(s: State, playedMs: nat): Option<PartialChunk> {
    if s.face.Some? && s.playing then
      var t := s.face.value;
      Some(PartialChunk(t.clauseId, t.start, t.chunk.chars, t.chunk.durMs, Min(playedMs, t.chunk.durMs)))
    else None
  }

  /** Barge-in: the partial is read and every stage cancelled in one step, then the mux
      reports the chunks that finished. */
  function AbortText(s: State, playedMs: nat): string {
    SpansText(AsDict(s.ledger), Spans(s.items)) + PartialText(AsDict(s.ledger), Partial(s, playedMs))
  }

  /** A stage crash: cancelling face clears the monitor before the partial is read. */
  function CrashText(s: State): string {
    SpansText(AsDict(s.ledger), Spans(s.items)) + PartialText(AsDict(s.ledger), None)
  }

  function Aborted(s: State): State {
    s.(busGen := s.busGen + 1, face := None, playing := false)
  }
}
