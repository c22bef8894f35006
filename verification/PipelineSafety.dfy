/** INV-1 over every interleaving of the response stages: the text in the pipeline is conserved
    by every step, so whatever is committed is a prefix of what the clauses say. */
module PipelineSafety {
  import opened Seqs
  import opened Wrappers
  import opened Chunking
  import opened Ledger
  import opened Pipeline

  // ---------------------------------------------------------------- texts in the pipeline

  function Total(chunks: seq<Chunk>): nat {
    if chunks == [] then 0 else chunks[0].chars + Total(chunks[1..])
  }

  type Tts = string -> seq<Chunk>

  /** What every TTS owes: the chunks of a clause cover no more than the clause. */
  ghost predicate Fits(tts: Tts) {
    forall text :: Total(tts(text)) <= |text|
  }

  /** The whole TTS contract: the chunks of a clause cover it exactly. */
  ghost predicate Covers(tts: Tts) {
    forall text :: Total(tts(text)) == |text|
  }

  /** How much of each clause is covered. */
  type Reach = string -> nat

  function ReachOf(tts: Tts): Reach { (text: string) => Total(tts(text)) }

  /** The reach is that of the TTS, and stays within the clause. */
  ghost predicate Reaches(r: Reach, tts: Tts) {
    forall text :: r(text) == Total(tts(text)) && r(text) <= |text|
  }

  lemma ReachOfReaches(tts: Tts)
    requires Fits(tts)
    ensures Reaches(ReachOf(tts), tts)
  {}

  /** The part of a clause its chunks cover. */
  function Part(r: Reach, text: string): string { Slice(text, 0, r(text)) }

  function Parts(r: Reach, ledger: seq<string>): (parts: seq<string>)
    ensures |parts| == |ledger|
  {
    if ledger == [] then [] else Parts(r, ledger[..|ledger| - 1]) + [Part(r, ledger[|ledger| - 1])]
  }

  function Captions(xs: seq<Tagged>): string {
    if xs == [] then "" else Captions(xs[..|xs| - 1]) + xs[|xs| - 1].caption
  }

  function AudioText(q: seq<AudioItem>): string {
    if q == [] then "" else ItemText(q[0]) + AudioText(q[1..])
  }

  function ItemText(x: AudioItem): string { match x case AudioItem(t) => t.caption case AudioEnd => "" }

  function ClausesText(r: Reach, q: seq<ClauseItem>): string {
    if q == [] then "" else ClauseText(r, q[0]) + ClausesText(r, q[1..])
  }

  function ClauseText(r: Reach, x: ClauseItem): string {
    match x case ClauseItem(_, text) => Part(r, text) case ClauseEnd => ""
  }

  lemma AddNothing(s: string)
    ensures s + "" == s && "" + s == s
  {}

  lemma {:induction false} AudioTextSnoc(q: seq<AudioItem>, x: AudioItem)
    ensures AudioText(q + [x]) == AudioText(q) + ItemText(x)
  {
    if q == [] {
      assert [x][1..] == [] && [] + [x] == [x];
      AddNothing(ItemText(x));
    } else {
      assert (q + [x])[1..] == q[1..] + [x] && (q + [x])[0] == q[0];
      AudioTextSnoc(q[1..], x);
      Assoc(ItemText(q[0]), AudioText(q[1..]), ItemText(x));
    }
  }

  lemma {:induction false} ClausesTextSnoc(r: Reach, q: seq<ClauseItem>, x: ClauseItem)
    ensures ClausesText(r, q + [x]) == ClausesText(r, q) + ClauseText(r, x)
  {
    if q == [] {
      assert [x][1..] == [] && [] + [x] == [x];
      AddNothing(ClauseText(r, x));
    } else {
      assert (q + [x])[1..] == q[1..] + [x] && (q + [x])[0] == q[0];
      ClausesTextSnoc(r, q[1..], x);
      Assoc(ClauseText(r, q[0]), ClausesText(r, q[1..]), ClauseText(r, x));
    }
  }

  function PuttingText(r: Reach, s: State): string {
    match s.putting case Some(x) => ClauseText(r, x) case None => ""
  }
  function CurrentText(r: Reach, s: State): string {
    match s.current case Some(c) => Slice(c.text, c.start, r(c.text)) case None => ""
  }
  function VoicePutText(s: State): string { match s.voicePut case Some(x) => ItemText(x) case None => "" }
  function FaceText(s: State): string { match s.face case Some(t) => t.caption case None => "" }

  /** Covered text numbered in the ledger and not yet played, nearest to the wire first. */
  function Line(face: string, audio: string, voicePut: string, current: string, clauses: string,
      putting: string): string {
    face + (audio + (voicePut + (current + (clauses + putting))))
  }

  function Unplayed(r: Reach, s: State): string {
    Line(FaceText(s), AudioText(s.audio), VoicePutText(s), CurrentText(r, s), ClausesText(r, s.clauses),
      PuttingText(r, s))
  }

  /** Text not yet numbered. */
  function Unnumbered(s: State): string { Join(s.pending) + (s.buf + Join(s.deltas)) }

  /** What the stages have played in full. */
  function Played(s: State): string { Captions(s.items) }

  // ---------------------------------------------------------------- the invariant

  predicate TagOk(ledger: seq<string>, t: Tagged) {
    && 1 <= t.clauseId <= |ledger| && t.start + t.chunk.chars == t.end <= |ledger[t.clauseId - 1]|
    && t.caption == ledger[t.clauseId - 1][t.start..t.end]
  }

  predicate ClauseOk(ledger: seq<string>, x: ClauseItem) {
    x.ClauseItem? ==> 1 <= x.id <= |ledger| && x.text == ledger[x.id - 1]
  }

  predicate ItemOk(ledger: seq<string>, x: AudioItem) { x.AudioItem? ==> TagOk(ledger, x.tagged) }

  predicate Tags(r: Reach, s: State) {
    && (forall t <- s.items :: TagOk(s.ledger, t))
    && (s.face.Some? ==> TagOk(s.ledger, s.face.value))
    && (forall x <- s.audio :: ItemOk(s.ledger, x))
    && (s.voicePut.Some? ==> ItemOk(s.ledger, s.voicePut.value))
    && (forall x <- s.clauses :: ClauseOk(s.ledger, x))
    && (s.putting.Some? ==> ClauseOk(s.ledger, s.putting.value))
    && (s.current.Some? ==> CurrentOk(r, s.ledger, s.current.value))
  }

  predicate CurrentOk(r: Reach, ledger: seq<string>, c: Current) {
    && 1 <= c.id <= |ledger| && c.text == ledger[c.id - 1]
    && c.start + Total(c.chunks) == r(c.text) <= |c.text|
  }

  /** Nothing is lost or reordered: played text, then the text in the queues, is what the chunks
      cover of the ledger; the ledger, then the text still to be numbered, is the whole input. */
  predicate Conserved(r: Reach, s: State, whole: string) {
    && Played(s) + Unplayed(r, s) == Join(Parts(r, s.ledger))
    && Join(s.ledger) + Unnumbered(s) == whole
  }

  predicate Inv(r: Reach, s: State, whole: string) { Tags(r, s) && Conserved(r, s, whole) }

  // ---------------------------------------------------------------- moving text along the line

  lemma LineNumber(f: string, a: string, v: string, c: string, q: string, text: string)
    ensures Line(f, a, v, c, q, "") + text == Line(f, a, v, c, q, text)
  {
    assert q + "" == q;
    Assoc(c, q, text);
    Assoc(v, c + q, text);
    Assoc(a, v + (c + q), text);
    Assoc(f, a + (v + (c + q)), text);
  }

  lemma LineTake(f: string, a: string, v: string, x: string, q: string, p: string)
    ensures Line(f, a, v, "", x + q, p) == Line(f, a, v, x, q, p)
  {
    Assoc(x, q, p);
    assert "" + (x + (q + p)) == x + (q + p);
  }

  lemma LinePut(f: string, a: string, v: string, c: string, q: string, p: string)
    ensures Line(f, a, v, c, q + p, "") == Line(f, a, v, c, q, p)
  {
    assert (q + p) + "" == q + p;
  }

  lemma LineNext(f: string, a: string, x: string, c: string, q: string, p: string)
    ensures Line(f, a, "", x + c, q, p) == Line(f, a, x, c, q, p)
  {
    Assoc(x, c, q + p);
    assert "" + (x + (c + (q + p))) == x + (c + (q + p));
  }

  lemma LineVoicePut(f: string, a: string, v: string, c: string, q: string, p: string)
    ensures Line(f, a + v, "", c, q, p) == Line(f, a, v, c, q, p)
  {
    Assoc(a, v, c + (q + p));
    assert "" + (c + (q + p)) == c + (q + p);
  }

  lemma LineFaceTake(x: string, a: string, v: string, c: string, q: string, p: string)
    ensures Line("", x + a, v, c, q, p) == Line(x, a, v, c, q, p)
  {
    Assoc(x, a, v + (c + (q + p)));
    assert "" + (x + (a + (v + (c + (q + p))))) == x + (a + (v + (c + (q + p))));
  }

  lemma LinePlayed(played: string, f: string, a: string, v: string, c: string, q: string, p: string)
    ensures (played + f) + Line("", a, v, c, q, p) == played + Line(f, a, v, c, q, p)
  {
    var rest := a + (v + (c + (q + p)));
    assert "" + rest == rest;
    Assoc(played, f, rest);
  }

  // ---------------------------------------------------------------- every step keeps it

  lemma PutMoves(u: Setup, r: Reach, s: State)
    requires Good(u.finder, u.max) && Enabled(s, BrainPut)
    ensures Unplayed(r, Next(u, s, BrainPut)) == Unplayed(r, s)
  {
    ClausesTextSnoc(r, s.clauses, s.putting.value);
    LinePut(FaceText(s), AudioText(s.audio), VoicePutText(s), CurrentText(r, s), ClausesText(r, s.clauses),
      PuttingText(r, s));
  }

  lemma TakeMoves(u: Setup, r: Reach, s: State)
    requires Good(u.finder, u.max) && Enabled(s, VoiceTake)
    ensures Unplayed(r, Next(u, s, VoiceTake)) == Unplayed(r, s)
  {
    TakeTexts(u, r, s);
    LineTake(FaceText(s), AudioText(s.audio), "", ClauseText(r, s.clauses[0]), ClausesText(r, s.clauses[1..]),
        PuttingText(r, s));
  }

  lemma TakeTexts(u: Setup, r: Reach, s: State)
    requires Good(u.finder, u.max) && Enabled(s, VoiceTake)
    ensures var t := Next(u, s, VoiceTake);
      && CurrentText(r, t) == ClauseText(r, s.clauses[0]) && t.clauses == s.clauses[1..] && VoicePutText(t) == ""
      && FaceText(t) == FaceText(s) && t.audio == s.audio && PuttingText(r, t) == PuttingText(r, s)
      && CurrentText(r, s) == "" && VoicePutText(s) == ""
  {}

  lemma NextMoves(u: Setup, r: Reach, s: State)
    requires Good(u.finder, u.max) && Tags(r, s) && Enabled(s, VoiceNext)
    ensures Unplayed(r, Next(u, s, VoiceNext)) == Unplayed(r, s)
  {
    var c := s.current.value;
    var end, stop := c.start + c.chunks[0].chars, r(c.text);
    NextTexts(u, r, s, end, stop);
    SliceSplits(c.text, c.start, end, stop);
    LineNext(FaceText(s), AudioText(s.audio), Slice(c.text, c.start, end), Slice(c.text, end, stop),
             ClausesText(r, s.clauses), PuttingText(r, s));
  }

  lemma NextTexts(u: Setup, r: Reach, s: State, end: nat, stop: nat)
    requires Good(u.finder, u.max) && Enabled(s, VoiceNext)
    requires end == s.current.value.start + s.current.value.chunks[0].chars
    requires stop == r(s.current.value.text)
    ensures var t, c := Next(u, s, VoiceNext), s.current.value;
      && VoicePutText(t) == Slice(c.text, c.start, end) && CurrentText(r, t) == Slice(c.text, end, stop)
      && FaceText(t) == FaceText(s) && t.audio == s.audio && t.clauses == s.clauses
      && PuttingText(r, t) == PuttingText(r, s)
      && VoicePutText(s) == "" && CurrentText(r, s) == Slice(c.text, c.start, stop)
  {}

  lemma SliceSplits(text: string, start: nat, end: nat, stop: nat)
    requires start <= end <= stop
    ensures Slice(text, start, stop) == Slice(text, start, end) + Slice(text, end, stop)
  {}

  lemma VoicePutMoves(u: Setup, r: Reach, s: State)
    requires Good(u.finder, u.max) && Enabled(s, VoicePut)
    ensures Unplayed(r, Next(u, s, VoicePut)) == Unplayed(r, s)
  {
    AudioTextSnoc(s.audio, s.voicePut.value);
    LineVoicePut(FaceText(s), AudioText(s.audio), VoicePutText(s), CurrentText(r, s), ClausesText(r, s.clauses),
        PuttingText(r, s));
  }

  lemma FaceTakeMoves(u: Setup, r: Reach, s: State)
    requires Good(u.finder, u.max) && Enabled(s, FaceTake)
    ensures Unplayed(r, Next(u, s, FaceTake)) == Unplayed(r, s)
  {
    LineFaceTake(ItemText(s.audio[0]), AudioText(s.audio[1..]), VoicePutText(s), CurrentText(r, s),
        ClausesText(r, s.clauses), PuttingText(r, s));
  }

  lemma UnplayedKept(u: Setup, r: Reach, s: State, step: Step)
    requires Good(u.finder, u.max) && Tags(r, s) && Enabled(s, step)
    requires !step.BrainNumber? && !step.FacePlayed?
    ensures Unplayed(r, Next(u, s, step)) == Unplayed(r, s)
  {
    match step
    case BrainPut => PutMoves(u, r, s);
    case VoiceTake => TakeMoves(u, r, s);
    case VoiceNext => NextMoves(u, r, s);
    case VoicePut => VoicePutMoves(u, r, s);
    case FaceTake => FaceTakeMoves(u, r, s);
    case _ => OthersMoveNothing(u, r, s, step);
  }

  lemma OthersMoveNothing(u: Setup, r: Reach, s: State, step: Step)
    requires Good(u.finder, u.max) && Tags(r, s) && Enabled(s, step)
    requires step.BrainFeed? || step.BrainFlush? || step.BrainEnd? || step.VoiceClauseDone? || step.FacePlay?
    ensures Unplayed(r, Next(u, s, step)) == Unplayed(r, s)
  {}

  lemma NextTagOk(r: Reach, ledger: seq<string>, c: Current)
    requires CurrentOk(r, ledger, c) && c.chunks != []
    ensures TagOk(ledger, Earlier(c)) && CurrentOk(r, ledger, Later(c))
  {}

  lemma TagsKept(u: Setup, r: Reach, s: State, step: Step)
    requires Good(u.finder, u.max) && Reaches(r, u.tts) && Tags(r, s) && Enabled(s, step)
    requires !step.BrainNumber?
    ensures Tags(r, Next(u, s, step))
  {
    match step
    case VoiceTake => TakeTags(u, r, s);
    case VoiceNext => NextTags(u, r, s);
    case _ => OtherTags(u, r, s, step);
  }

  lemma NextTags(u: Setup, r: Reach, s: State)
    requires Good(u.finder, u.max) && Tags(r, s) && Enabled(s, VoiceNext)
    ensures Tags(r, Next(u, s, VoiceNext))
  {
    var c := s.current.value;
    CurrentOfTags(r, s);
    NextTagOk(r, s.ledger, c);
    TagsWith(r, s, Later(c), AudioItem(Earlier(c)));
    NextIs(u, s, c);
  }

  /** The next chunk of a clause, and the clause without it. */
  function Earlier(c: Current): Tagged
    requires c.chunks != []
  {
    var end := c.start + c.chunks[0].chars;
    Tagged(c.chunks[0], c.id, c.start, end, Slice(c.text, c.start, end))
  }

  function Later(c: Current): Current
    requires c.chunks != []
  {
    c.(start := c.start + c.chunks[0].chars, chunks := c.chunks[1..])
  }

  lemma CurrentOfTags(r: Reach, s: State)
    requires Tags(r, s) && s.current.Some?
    ensures CurrentOk(r, s.ledger, s.current.value)
  {}

  lemma NextIs(u: Setup, s: State, c: Current)
    requires Good(u.finder, u.max) && Enabled(s, VoiceNext) && s.current == Some(c)
    ensures Next(u, s, VoiceNext) == s.(current := Some(Later(c)), voicePut := Some(AudioItem(Earlier(c))))
  {}

  lemma TagsWith(r: Reach, s: State, c: Current, x: AudioItem)
    requires Tags(r, s) && CurrentOk(r, s.ledger, c) && ItemOk(s.ledger, x)
    ensures Tags(r, s.(current := Some(c), voicePut := Some(x)))
  {}

  lemma TakeTags(u: Setup, r: Reach, s: State)
    requires Good(u.finder, u.max) && Reaches(r, u.tts) && Tags(r, s) && Enabled(s, VoiceTake)
    ensures Tags(r, Next(u, s, VoiceTake))
  {
    var x := s.clauses[0];
    assert ClauseOk(s.ledger, x);
    if x.ClauseItem? { assert r(x.text) == Total(u.tts(x.text)); }
  }

  lemma OtherTags(u: Setup, r: Reach, s: State, step: Step)
    requires Good(u.finder, u.max) && Tags(r, s) && Enabled(s, step)
    requires !step.BrainNumber? && !step.VoiceTake? && !step.VoiceNext?
    ensures Tags(r, Next(u, s, step))
  {
    match step
    case BrainPut => PutTags(u, r, s);
    case VoicePut => VoicePutTags(u, r, s);
    case FaceTake => FaceTakeTags(u, r, s);
    case FacePlayed => PlayedTags(u, r, s);
    case _ => SameTags(u, r, s, step);
  }

  lemma PutTags(u: Setup, r: Reach, s: State)
    requires Good(u.finder, u.max) && Tags(r, s) && Enabled(s, BrainPut)
    ensures Tags(r, Next(u, s, BrainPut))
  {}

  lemma VoicePutTags(u: Setup, r: Reach, s: State)
    requires Good(u.finder, u.max) && Tags(r, s) && Enabled(s, VoicePut)
    ensures Tags(r, Next(u, s, VoicePut))
  {}

  lemma FaceTakeTags(u: Setup, r: Reach, s: State)
    requires Good(u.finder, u.max) && Tags(r, s) && Enabled(s, FaceTake)
    ensures Tags(r, Next(u, s, FaceTake))
  {
    assert ItemOk(s.ledger, s.audio[0]);
  }

  lemma PlayedTags(u: Setup, r: Reach, s: State)
    requires Good(u.finder, u.max) && Tags(r, s) && Enabled(s, FacePlayed)
    ensures Tags(r, Next(u, s, FacePlayed))
  {}

  lemma SameTags(u: Setup, r: Reach, s: State, step: Step)
    requires Good(u.finder, u.max) && Tags(r, s) && Enabled(s, step)
    requires step.BrainFeed? || step.BrainFlush? || step.BrainEnd? || step.VoiceClauseDone? || step.FacePlay?
    ensures Tags(r, Next(u, s, step))
  {}

  lemma TagsGrow(r: Reach, s: State, text: string, t: State)
    requires Tags(r, s) && s.putting.None?
    requires t == s.(pending := t.pending, ledger := s.ledger + [text], putting := Some(ClauseItem(|s.ledger| + 1,
        text)))
    ensures Tags(r, t)
  {
    assert forall i | 0 <= i < |s.ledger| :: t.ledger[i] == s.ledger[i];
    assert forall x :: TagOk(s.ledger, x) ==> TagOk(t.ledger, x);
  }

  lemma NumberKeeps(u: Setup, r: Reach, s: State, whole: string)
    requires Good(u.finder, u.max) && Inv(r, s, whole) && Enabled(s, BrainNumber)
    ensures Inv(r, Next(u, s, BrainNumber), whole)
  {
    TagsGrow(r, s, s.pending[0], Next(u, s, BrainNumber));
    NumberConserves(u, r, s, s.pending[0], whole);
  }

  lemma NumberConserves(u: Setup, r: Reach, s: State, text: string, whole: string)
    requires Good(u.finder, u.max) && Conserved(r, s, whole) && Enabled(s, BrainNumber) && text == s.pending[0]
    ensures Conserved(r, Next(u, s, BrainNumber), whole)
  {
    NumberConservesLine(u, r, s, text);
    NumberConservesWhole(u, s, text);
  }

  lemma NumberConservesLine(u: Setup, r: Reach, s: State, text: string)
    requires Good(u.finder, u.max) && Enabled(s, BrainNumber) && text == s.pending[0]
    requires Played(s) + Unplayed(r, s) == Join(Parts(r, s.ledger))
    ensures var t := Next(u, s, BrainNumber); Played(t) + Unplayed(r, t) == Join(Parts(r, t.ledger))
  {
    NumberedUnplayed(u, r, s, text);
    Assoc(Played(s), Unplayed(r, s), Part(r, text));
    PartsGrow(r, s.ledger, text);
    NumberedFields(u, s, text);
  }

  lemma NumberedFields(u: Setup, s: State, text: string)
    requires Good(u.finder, u.max) && Enabled(s, BrainNumber) && text == s.pending[0]
    ensures var t := Next(u, s, BrainNumber);
      && t.items == s.items && t.ledger == s.ledger + [text] && t.pending == s.pending[1..]
      && t.buf == s.buf && t.deltas == s.deltas && s.pending == [text] + s.pending[1..]
  {}

  lemma NumberConservesWhole(u: Setup, s: State, text: string)
    requires Good(u.finder, u.max) && Enabled(s, BrainNumber) && text == s.pending[0]
    ensures var t := Next(u, s, BrainNumber); Join(t.ledger) + Unnumbered(t) == Join(s.ledger) + Unnumbered(s)
  {
    NumberedFields(u, s, text);
    LedgerGrows(s.ledger, text, s.pending[1..], s.buf + Join(s.deltas));
  }

  lemma PartsGrow(r: Reach, ledger: seq<string>, text: string)
    ensures Parts(r, ledger + [text]) == Parts(r, ledger) + [Part(r, text)]
    ensures Join(Parts(r, ledger + [text])) == Join(Parts(r, ledger)) + Part(r, text)
  {
    assert (ledger + [text])[..|ledger|] == ledger;
    JoinConcat(Parts(r, ledger), [Part(r, text)]);
    JoinCons(Part(r, text), []);
    assert Part(r, text) + "" == Part(r, text) && [Part(r, text)] + [] == [Part(r, text)];
  }

  lemma NumberedUnplayed(u: Setup, r: Reach, s: State, text: string)
    requires Good(u.finder, u.max) && Enabled(s, BrainNumber) && text == s.pending[0]
    ensures Unplayed(r, Next(u, s, BrainNumber)) == Unplayed(r, s) + Part(r, text)
  {
    LineNumber(FaceText(s), AudioText(s.audio), VoicePutText(s), CurrentText(r, s), ClausesText(r, s.clauses),
      Part(r, text));
  }

  lemma LedgerGrows(ledger: seq<string>, text: string, pending: seq<string>, rest: string)
    ensures Join(ledger + [text]) + (Join(pending) + rest) == Join(ledger) + (Join([text] + pending) + rest)
  {
    JoinConcat(ledger, [text]);
    JoinCons(text, []);
    assert text + "" == text && [text] + [] == [text];
    JoinCons(text, pending);
    Assoc(text, Join(pending), rest);
    Assoc(Join(ledger), text, Join(pending) + rest);
  }

  lemma FeedKeepsUnnumbered(u: Setup, s: State, out: seq<string>, rest: string)
    requires Good(u.finder, u.max) && Enabled(s, BrainFeed)
    requires (out, rest) == Cut(u.finder, u.max, s.buf + s.deltas[0])
    ensures Join(out) + (rest + Join(s.deltas[1..])) == s.buf + Join(s.deltas)
  {
    CutMeaning(u.finder, u.max, s.buf + s.deltas[0]);
    Assoc(s.buf, s.deltas[0], Join(s.deltas[1..]));
    Assoc(Join(out), rest, Join(s.deltas[1..]));
  }

  lemma FeedUnnumbered(u: Setup, s: State, out: seq<string>, rest: string)
    requires Good(u.finder, u.max) && Enabled(s, BrainFeed)
    requires (out, rest) == Cut(u.finder, u.max, s.buf + s.deltas[0])
    ensures Unnumbered(Next(u, s, BrainFeed)) == Unnumbered(s)
  {
    FeedKeepsUnnumbered(u, s, out, rest);
    assert "" + (s.buf + Join(s.deltas)) == s.buf + Join(s.deltas);
  }

  lemma FlushUnnumbered(u: Setup, s: State)
    requires Good(u.finder, u.max) && Enabled(s, BrainFlush)
    ensures Unnumbered(Next(u, s, BrainFlush)) == Unnumbered(s)
  {
    if s.buf != "" { JoinCons(s.buf, []); }
    FlushedText(s.buf);
  }

  lemma OthersUnnumbered(u: Setup, s: State, step: Step)
    requires Good(u.finder, u.max) && Enabled(s, step)
    requires !step.BrainNumber? && !step.BrainFeed? && !step.BrainFlush?
    ensures Unnumbered(Next(u, s, step)) == Unnumbered(s)
  {}

  lemma UnnumberedKept(u: Setup, s: State, step: Step)
    requires Good(u.finder, u.max) && Enabled(s, step)
    requires !step.BrainNumber?
    ensures Unnumbered(Next(u, s, step)) == Unnumbered(s)
  {
    if step.BrainFeed? {
      var cut := Cut(u.finder, u.max, s.buf + s.deltas[0]);
      FeedUnnumbered(u, s, cut.0, cut.1);
    } else if step.BrainFlush? {
      FlushUnnumbered(u, s);
    } else {
      OthersUnnumbered(u, s, step);
    }
  }

  lemma FlushedText(buf: string)
    ensures Join(Flushed(buf)) + ("" + "") == "" + (buf + "")
  {
    if buf != "" { assert buf + "" == buf; }
  }

  lemma FacePlayedKeeps(u: Setup, r: Reach, s: State, whole: string)
    requires Good(u.finder, u.max) && Inv(r, s, whole) && Enabled(s, FacePlayed)
    ensures Conserved(r, Next(u, s, FacePlayed), whole)
  {
    var t := Next(u, s, FacePlayed);
    assert t.items[..|t.items| - 1] == s.items;
    LinePlayed(Played(s), FaceText(s), AudioText(s.audio), VoicePutText(s), CurrentText(r, s),
      ClausesText(r, s.clauses), PuttingText(r, s));
  }

  lemma StepKeeps(u: Setup, r: Reach, s: State, step: Step, whole: string)
    requires Good(u.finder, u.max) && Reaches(r, u.tts) && Inv(r, s, whole) && Enabled(s, step)
    ensures Inv(r, Next(u, s, step), whole)
  {
    if step.BrainNumber? {
      NumberKeeps(u, r, s, whole);
    } else {
      TagsKept(u, r, s, step);
      if step.FacePlayed? {
        FacePlayedKeeps(u, r, s, whole);
      } else {
        UnnumberedKept(u, s, step);
        UnplayedKept(u, r, s, step);
        LedgerAndItemsKept(u, s, step);
      }
    }
  }

  lemma LedgerAndItemsKept(u: Setup, s: State, step: Step)
    requires Good(u.finder, u.max) && Enabled(s, step) && !step.BrainNumber? && !step.FacePlayed?
    ensures Next(u, s, step).ledger == s.ledger && Next(u, s, step).items == s.items
  {}

  // ---------------------------------------------------------------- runs

  predicate Runs(u: Setup, s: State, steps: seq<Step>)
    requires Good(u.finder, u.max)
    decreases |steps|
  {
    steps == [] || (Enabled(s, steps[0]) && Runs(u, Next(u, s, steps[0]), steps[1..]))
  }

  function Run(u: Setup, s: State, steps: seq<Step>): State
    requires Good(u.finder, u.max) && Runs(u, s, steps)
    decreases |steps|
  {
    if steps == [] then s else Run(u, Next(u, s, steps[0]), steps[1..])
  }

  lemma {:induction false} RunKeeps(u: Setup, r: Reach, s: State, steps: seq<Step>, whole: string)
    requires Good(u.finder, u.max) && Reaches(r, u.tts) && Inv(r, s, whole) && Runs(u, s, steps)
    ensures Inv(r, Run(u, s, steps), whole)
    decreases |steps|
  {
    if steps != [] {
      StepKeeps(u, r, s, steps[0], whole);
      RunKeeps(u, r, Next(u, s, steps[0]), steps[1..], whole);
    }
  }

  // ---------------------------------------------------------------- INV-1

  lemma {:induction false} DictOfLedger(ledger: seq<string>)
    ensures forall id | 1 <= id <= |ledger| :: TextOf(AsDict(ledger), id) == ledger[id - 1]
  {
    if ledger != [] {
      var n := |ledger|;
      DictOfLedger(ledger[..n - 1]);
      forall id | 1 <= id <= n ensures TextOf(AsDict(ledger), id) == ledger[id - 1] {
        if id < n { assert TextOf(AsDict(ledger[..n - 1]), id) == ledger[..n - 1][id - 1]; }
      }
    }
  }

  lemma SliceOfTag(ledger: seq<string>, t: Tagged)
    requires TagOk(ledger, t)
    ensures Slice(ledger[t.clauseId - 1], t.start, t.end) == t.caption
  {}

  predicate SpanOk(dict: map<nat, string>, t: Tagged) {
    Slice(TextOf(dict, t.clauseId), t.start, t.end) == t.caption
  }

  lemma {:induction false} SpansSpell(dict: map<nat, string>, items: seq<Tagged>)
    requires forall t <- items :: SpanOk(dict, t)
    ensures SpansText(dict, Spans(items)) == Captions(items)
  {
    if items != [] {
      var n := |items| - 1;
      SpansSpell(dict, items[..n]);
      assert Spans(items)[..n] == Spans(items[..n]);
      assert SpanOk(dict, items[n]);
    }
  }

  /** The spans the mux reports spell exactly the text played in full. */
  lemma SpansSpellPlayed(ledger: seq<string>, items: seq<Tagged>)
    requires forall t <- items :: TagOk(ledger, t)
    ensures SpansText(AsDict(ledger), Spans(items)) == Captions(items)
  {
    forall t | t in items ensures SpanOk(AsDict(ledger), t) { SpanOfTag(ledger, t); }
    SpansSpell(AsDict(ledger), items);
  }

  lemma SpanOfTag(ledger: seq<string>, t: Tagged)
    requires TagOk(ledger, t)
    ensures SpanOk(AsDict(ledger), t)
  {
    DictOfLedger(ledger);
    SliceOfTag(ledger, t);
  }

  predicate IsPrefix(a: string, b: string) { |a| <= |b| && b[..|a|] == a }

  lemma CutOfSlice(clause: string, start: nat, chars: nat, n: nat)
    requires n <= chars && start + chars <= |clause|
    ensures IsPrefix(Slice(clause, start, start + n), clause[start..start + chars])
  {}

  /** The cut of one chunk is a prefix of its caption. */
  lemma CutOfTag(ledger: seq<string>, t: Tagged, p: PartialChunk)
    requires TagOk(ledger, t) && p.clauseId == t.clauseId && p.start == t.start && p.chars == t.chunk.chars
    requires p.durMs <= 0 || p.playedMs <= p.durMs
    ensures IsPrefix(PartialText(AsDict(ledger), Some(p)), t.caption) && CommittedChars(p) <= t.chunk.chars
  {
    DictOfLedger(ledger);
    CutWithin(p);
    CutOfSlice(ledger[t.clauseId - 1], t.start, t.chunk.chars, CommittedChars(p));
  }

  lemma CutWithin(p: PartialChunk)
    requires p.durMs <= 0 || p.playedMs <= p.durMs
    ensures CommittedChars(p) <= p.chars
  {
    if p.durMs > 0 { CutIsProportional(p, p); }
  }

  /** The cut of the chunk in flight: a prefix of the text that chunk carries. */
  lemma PartialIsPrefix(r: Reach, s: State, playedMs: nat)
    requires Tags(r, s)
    ensures IsPrefix(PartialText(AsDict(s.ledger), Partial(s, playedMs)), FaceText(s))
  {
    if s.face.Some? && s.playing { CutOfTag(s.ledger, s.face.value, Partial(s, playedMs).value); }
  }

  /** INV-1 for any TTS that covers no more than the clauses: in every reachable state of every
      interleaving, barge-in commits all the text that finished playing and a prefix of the chunk in
      flight, a stage crash commits exactly the text that finished playing, and both are prefixes of
      what the chunks cover of the clauses; the clauses are a prefix of the input. */
  lemma CommitsWhatIsCovered(u: Setup, gen: nat, deltas: seq<string>, steps: seq<Step>, playedMs: nat)
    requires Good(u.finder, u.max) && Fits(u.tts) && Runs(u, Start(gen, deltas), steps)
    ensures var s := Run(u, Start(gen, deltas), steps);
      && IsPrefix(Played(s), AbortText(s, playedMs))
      && IsPrefix(AbortText(s, playedMs), Played(s) + FaceText(s))
      && CrashText(s) == Played(s)
      && IsPrefix(Played(s) + FaceText(s), Join(Parts(ReachOf(u.tts), s.ledger)))
      && IsPrefix(Join(s.ledger), Join(deltas))
  {
    ReachOfReaches(u.tts);
    StartKeeps(ReachOf(u.tts), gen, deltas);
    RunKeeps(u, ReachOf(u.tts), Start(gen, deltas), steps, Join(deltas));
    CommittedPrefixes(ReachOf(u.tts), Run(u, Start(gen, deltas), steps), playedMs, Join(deltas));
  }

  /** INV-1: with a TTS that covers every clause exactly, what is committed is a prefix of the
      clauses and so of the input. */
  lemma CommitsWhatWasHeard(u: Setup, gen: nat, deltas: seq<string>, steps: seq<Step>, playedMs: nat)
    requires Good(u.finder, u.max) && Covers(u.tts) && Runs(u, Start(gen, deltas), steps)
    ensures var s := Run(u, Start(gen, deltas), steps);
      && IsPrefix(Played(s), AbortText(s, playedMs))
      && IsPrefix(AbortText(s, playedMs), Played(s) + FaceText(s))
      && CrashText(s) == Played(s)
      && IsPrefix(Played(s) + FaceText(s), Join(s.ledger))
      && IsPrefix(Join(s.ledger), Join(deltas))
  {
    CommitsWhatIsCovered(u, gen, deltas, steps, playedMs);
    CoveredParts(ReachOf(u.tts), Run(u, Start(gen, deltas), steps).ledger);
  }

  lemma {:induction false} CoveredParts(r: Reach, ledger: seq<string>)
    requires forall text <- ledger :: r(text) == |text|
    ensures Parts(r, ledger) == ledger
  {
    if ledger != [] {
      var n := |ledger| - 1;
      CoveredParts(r, ledger[..n]);
      assert Part(r, ledger[n]) == ledger[n];
      assert ledger == ledger[..n] + [ledger[n]];
    }
  }

  lemma CommittedPrefixes(r: Reach, s: State, playedMs: nat, whole: string)
    requires Inv(r, s, whole)
    ensures IsPrefix(Played(s), AbortText(s, playedMs))
    ensures IsPrefix(AbortText(s, playedMs), Played(s) + FaceText(s))
    ensures CrashText(s) == Played(s)
    ensures IsPrefix(Played(s) + FaceText(s), Join(Parts(r, s.ledger)))
    ensures IsPrefix(Join(s.ledger), whole)
  {
    SpansSpellPlayed(s.ledger, s.items);
    PartialIsPrefix(r, s, playedMs);
    PrefixUnder(Played(s), PartialText(AsDict(s.ledger), Partial(s, playedMs)), FaceText(s));
    var rest := AudioText(s.audio)
      + (VoicePutText(s) + (CurrentText(r, s) + (ClausesText(r, s.clauses) + PuttingText(r, s))));
    Assoc(Played(s), FaceText(s), rest);
    PrefixOfConcat(Played(s) + FaceText(s), rest);
    PrefixOfConcat(Join(s.ledger), Unnumbered(s));
    assert Played(s) + "" == Played(s);
  }

  lemma PrefixOfConcat(a: string, b: string)
    ensures IsPrefix(a, a + b)
  {}

  lemma PrefixUnder(a: string, b: string, c: string)
    requires IsPrefix(b, c)
    ensures IsPrefix(a, a + b) && IsPrefix(a + b, a + c)
  {
    assert c == b + c[|b|..];
    Assoc(a, b, c[|b|..]);
  }

  lemma StartKeeps(r: Reach, gen: nat, deltas: seq<string>)
    ensures Inv(r, Start(gen, deltas), Join(deltas))
  {
    NothingYet(r, Start(gen, deltas));
    assert "" + ("" + Join(deltas)) == Join(deltas) && "" + Join(deltas) == Join(deltas);
  }

  lemma NothingYet(r: Reach, s: State)
    requires s.items == [] && s.face.None? && s.audio == [] && s.voicePut.None? && s.current.None?
    requires s.clauses == [] && s.putting.None? && s.ledger == []
    ensures Played(s) + Unplayed(r, s) == Join(Parts(r, s.ledger)) && Tags(r, s)
  {
    assert "" + "" == "";
  }
}
