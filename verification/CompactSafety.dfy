/** What compaction remembers: over whole runs every turn is in the newest summary or in the
    printed tail, and exactly which compactions break that. */
module CompactSafety {
  import opened Seqs
  import opened Wrappers
  import opened Events
  import opened Render
  import opened Compact

  // ---------------------------------------------------------------- text inside text

  predicate At(big: string, small: string, i: nat) {
    i + |small| <= |big| && big[i..i + |small|] == small
  }

  predicate Contains(big: string, small: string) {
    exists i: nat | i <= |big| :: At(big, small, i)
  }

  lemma ContainsLeft(a: string, b: string, x: string)
    requires Contains(a, x)
    ensures Contains(a + b, x)
  {
    var i: nat :| i <= |a| && At(a, x, i);
    assert At(a + b, x, i);
  }

  lemma ContainsRight(a: string, b: string, x: string)
    requires Contains(b, x)
    ensures Contains(a + b, x)
  {
    var i: nat :| i <= |b| && At(b, x, i);
    assert (a + b)[|a| + i..|a| + i + |x|] == b[i..i + |x|];
    assert At(a + b, x, |a| + i);
  }

  lemma ContainsTrimmed(big: string, x: string)
    requires Contains(big, x) && Trimmed(x)
    ensures Contains(TrimEnd(big), x)
  {
    var i: nat :| i <= |big| && At(big, x, i);
    var kept := TrimEnd(big);
    if x == "" {
      assert At(kept, x, 0);
    } else {
      assert x[|x| - 1] == big[i + |x| - 1];
      assert kept[i..i + |x|] == big[i..i + |x|];
      assert At(kept, x, i);
    }
  }

  lemma ContainsItsTrim(text: string)
    ensures Contains(text, TrimEnd(text))
  {
    assert At(text, TrimEnd(text), 0);
  }

  // ---------------------------------------------------------------- what a rolled summary holds

  lemma {:induction false} BulletsTell(events: seq<Event>, e: Event)
    requires e in events
    ensures Contains(Bullets(events), TrimEnd(e.text))
  {
    var n := |events| - 1;
    var before, text, x := Bullets(events[..n]), events[n].text, TrimEnd(e.text);
    if e == events[n] {
      ContainsItsTrim(text);
      ContainsRight("- ", text, x);
      ContainsLeft("- " + text, "\n", x);
      ContainsRight(before, Bullet(text), x);
    } else {
      assert e in events[..n];
      BulletsTell(events[..n], e);
      ContainsLeft(before, Bullet(text), x);
    }
  }

  lemma RolledTells(prior: Option<string>, events: seq<Event>, e: Event)
    requires e in events
    ensures Contains(Rolled(prior, events), TrimEnd(e.text))
  {
    BulletsTell(events, e);
    ContainsRight(Opening(prior), Bullets(events), TrimEnd(e.text));
    ContainsTrimmed(Opening(prior) + Bullets(events), TrimEnd(e.text));
  }

  lemma RolledKeeps(prior: string, events: seq<Event>, x: string)
    requires Contains(prior, x) && Trimmed(x)
    ensures Contains(Rolled(Some(prior), events), x)
  {
    ContainsLeft(prior, "\n", x);
    ContainsLeft(prior + "\n", Bullets(events), x);
    ContainsTrimmed(Opening(Some(prior)) + Bullets(events), x);
  }

  // ---------------------------------------------------------------- the newest summary remembers

  predicate InSummary(log: seq<Event>, text: string) {
    PriorText(log).Some? && Contains(PriorText(log).value, TrimEnd(text))
  }

  /** Every event of turns 1 to `through` has its text in the newest summary. */
  predicate Remembers(log: seq<Event>, through: nat) {
    forall e <- log :: 1 <= e.turn <= through ==> InSummary(log, e.text)
  }

  /** The covers a compaction can be made from: it reaches no further than its own start lets
      it, or no further than before. */
  predicate Careful(cover: Covers, coverTo: nat) {
    cover.fromTurn <= cover.toTurn || coverTo <= cover.toTurn
  }

  lemma NewestSummary(log: seq<Event>, s: Event)
    requires s.kind.Summary? && s.covers.Some?
    ensures PriorCover(log + [s]) == s.covers.value && PriorText(log + [s]) == Some(s.text)
    ensures CoverTo(log + [s]) == s.covers.value.toTurn
  {}

  lemma NotASummary(log: seq<Event>, e: Event)
    requires !e.kind.Summary?
    ensures PriorCover(log + [e]) == PriorCover(log) && PriorText(log + [e]) == PriorText(log)
  {
    assert (log + [e])[..|log|] == log;
  }

  lemma SummaryTells(log: seq<Event>, tail: nat, lastTurn: nat, e: Event)
    requires e in log && 1 <= e.turn <= Minus(lastTurn, tail)
    requires Remembers(log, PriorCover(log).toTurn) && Careful(PriorCover(log), Minus(lastTurn, tail))
    ensures Contains(Rolled(PriorText(log), Range(log, tail, lastTurn)), TrimEnd(e.text))
  {
    if e.turn > PriorCover(log).fromTurn {
      RolledTells(PriorText(log), Range(log, tail, lastTurn), e);
    } else {
      assert InSummary(log, e.text);
      RolledKeeps(PriorText(log).value, Range(log, tail, lastTurn), TrimEnd(e.text));
    }
  }

  /** A careful compaction with a tail forgets nothing it claims to cover. */
  lemma CarefulRemembers(log: seq<Event>, tail: nat, lastTurn: nat, epoch: nat, sid: string, ts: string)
    requires tail >= 1
    requires Remembers(log, PriorCover(log).toTurn) && Careful(PriorCover(log), Minus(lastTurn, tail))
    ensures Remembers(log + [NextSummary(log, tail, lastTurn, epoch, sid, ts)], Minus(lastTurn, tail))
  {
    var s := NextSummary(log, tail, lastTurn, epoch, sid, ts);
    NewestSummary(log, s);
    forall e | e in log + [s] && 1 <= e.turn <= Minus(lastTurn, tail) ensures InSummary(log + [s], e.text) {
      assert e != s;
      SummaryTells(log, tail, lastTurn, e);
    }
  }

  // ---------------------------------------------------------------- runs

  datatype Action = Say(e: Event) | Compact(sid: string, ts: string, outcome: Outcome, finish: Finish)

  /** Callers never go back in turns, and only compaction writes summaries. */
  predicate Legal(s: State, a: Action) {
    a.Say? ==> !a.e.kind.Summary? && OrZero(s.lastTurn) <= a.e.turn <= U64_MAX
  }

  function Next(cfg: Config, s: State, a: Action): State {
    match a
    case Say(e) => Said(s, e)
    case Compact(sid, ts, outcome, finish) => Compacted(cfg, s, sid, ts, outcome, finish)
  }

  /** This action appends a summary. */
  predicate Appends(cfg: Config, s: State, a: Action) {
    a.Compact? && Triggered(cfg, s) && a.outcome.Committed?
  }

  predicate CarefulAction(cfg: Config, s: State, a: Action) {
    Appends(cfg, s, a) ==> Careful(PriorCover(s.log), Minus(OrZero(s.lastTurn), cfg.tail))
  }

  /** Enough live turns, not the token budget, set it off. */
  predicate ByLiveTurns(cfg: Config, s: State, a: Action) {
    Appends(cfg, s, a) ==> LiveTurns(s) > cfg.tail * 2
  }

  predicate LegalRun(cfg: Config, s: State, run: seq<Action>)
    decreases |run|
  {
    run == [] || (Legal(s, run[0]) && LegalRun(cfg, Next(cfg, s, run[0]), run[1..]))
  }

  predicate RunByLiveTurns(cfg: Config, s: State, run: seq<Action>)
    decreases |run|
  {
    run == [] || (ByLiveTurns(cfg, s, run[0]) && RunByLiveTurns(cfg, Next(cfg, s, run[0]), run[1..]))
  }

  predicate CarefulRun(cfg: Config, s: State, run: seq<Action>)
    decreases |run|
  {
    run == [] || (CarefulAction(cfg, s, run[0]) && CarefulRun(cfg, Next(cfg, s, run[0]), run[1..]))
  }

  function After(cfg: Config, s: State, run: seq<Action>): State
    decreases |run|
  {
    if run == [] then s else After(cfg, Next(cfg, s, run[0]), run[1..])
  }

  /** Turns are bounded by the index's last turn, and what is covered is remembered. */
  predicate Holds(cfg: Config, log: seq<Event>, lastTurn: nat) {
    && lastTurn <= U64_MAX
    && (forall e <- log :: e.turn <= lastTurn)
    && PriorCover(log).toTurn <= Minus(lastTurn, cfg.tail)
    && Remembers(log, PriorCover(log).toTurn)
  }

  predicate Inv(cfg: Config, s: State) { Holds(cfg, s.log, OrZero(s.lastTurn)) }

  lemma SayKeeps(cfg: Config, s: State, e: Event)
    requires Inv(cfg, s) && Legal(s, Say(e)) && cfg.tail >= 1
    ensures Inv(cfg, Said(s, e))
  {
    NotASummary(s.log, e);
    var cover := PriorCover(s.log).toTurn;
    forall x | x in s.log + [e] && 1 <= x.turn <= cover ensures InSummary(s.log + [e], x.text) {
      assert x in s.log;
    }
  }

  lemma CompactKeeps(cfg: Config, s: State, a: Action)
    requires a.Compact? && cfg.tail >= 1 && Inv(cfg, s) && CarefulAction(cfg, s, a)
    ensures Inv(cfg, Next(cfg, s, a))
  {
    if Appends(cfg, s, a) {
      AppendKeeps(cfg, s, SummaryFor(cfg, s, a.sid, a.ts), a.sid, a.ts);
      KeptWhenWritten(cfg, s, SummaryFor(cfg, s, a.sid, a.ts), a.finish);
    }
  }

  lemma KeptWhenWritten(cfg: Config, s: State, summary: Event, finish: Finish)
    requires Holds(cfg, s.log + [summary], summary.turn)
    ensures Inv(cfg, Written(cfg.tail, s, summary, Committed, finish))
  {}

  lemma AppendKeeps(cfg: Config, s: State, summary: Event, sid: string, ts: string)
    requires cfg.tail >= 1 && Inv(cfg, s)
    requires Careful(PriorCover(s.log), Minus(OrZero(s.lastTurn), cfg.tail))
    requires summary == SummaryFor(cfg, s, sid, ts)
    ensures Holds(cfg, s.log + [summary], summary.turn)
  {
    var log, last := s.log + [summary], OrZero(s.lastTurn);
    NewestSummary(s.log, summary);
    CarefulRemembers(s.log, cfg.tail, last, OrZero(s.epoch) + 1, sid, ts);
    assert PriorCover(log).toTurn == Minus(last, cfg.tail) && summary.turn == last;
  }

  lemma StepKeeps(cfg: Config, s: State, a: Action)
    requires cfg.tail >= 1 && Inv(cfg, s) && Legal(s, a) && CarefulAction(cfg, s, a)
    ensures Inv(cfg, Next(cfg, s, a))
  {
    if a.Say? { SayKeeps(cfg, s, a.e); } else { CompactKeeps(cfg, s, a); }
  }

  lemma {:induction false} RunKeeps(cfg: Config, s: State, run: seq<Action>)
    requires cfg.tail >= 1 && Inv(cfg, s) && LegalRun(cfg, s, run) && CarefulRun(cfg, s, run)
    ensures Inv(cfg, After(cfg, s, run))
    decreases |run|
  {
    if run != [] {
      StepKeeps(cfg, s, run[0]);
      RunKeeps(cfg, Next(cfg, s, run[0]), run[1..]);
    }
  }

  /** Live turns alone keep every compaction careful: the cover's end outruns its start. */
  lemma {:induction false} LiveTurnsAreCareful(cfg: Config, s: State, run: seq<Action>)
    requires PriorCover(s.log).fromTurn <= PriorCover(s.log).toTurn
    requires cfg.tail >= 1 && LegalRun(cfg, s, run) && RunByLiveTurns(cfg, s, run)
    ensures CarefulRun(cfg, s, run)
    decreases |run|
  {
    if run != [] {
      StartStaysBehind(cfg, s, run[0]);
      LiveTurnsAreCareful(cfg, Next(cfg, s, run[0]), run[1..]);
    }
  }

  lemma StartStaysBehind(cfg: Config, s: State, a: Action)
    requires PriorCover(s.log).fromTurn <= PriorCover(s.log).toTurn
    requires Legal(s, a) && cfg.tail >= 1 && ByLiveTurns(cfg, s, a)
    ensures PriorCover(Next(cfg, s, a).log).fromTurn <= PriorCover(Next(cfg, s, a).log).toTurn
  {
    if a.Say? {
      NotASummary(s.log, a.e);
    } else if Appends(cfg, s, a) {
      NewestSummary(s.log, SummaryFor(cfg, s, a.sid, a.ts));
    }
  }

  // ---------------------------------------------------------------- nothing is forgotten

  lemma {:induction false} FewTurns(turns: set<nat>, after: nat, n: nat)
    requires forall t <- turns :: after < t <= after + n
    ensures |turns| <= n
  {
    if n == 0 {
      assert turns == {};
    } else {
      FewTurns(turns - {after + n}, after, n - 1);
    }
  }

  /** Right after a compaction the tail prints everything said past the summary. */
  lemma TailIsWhole(log: seq<Event>, tail: nat, lastTurn: nat)
    requires 1 <= tail && lastTurn <= U64_MAX && CoverTo(log) == Minus(lastTurn, tail)
    requires forall e <- log :: e.turn <= lastTurn
    ensures Recent(log, tail) == Tail(log)
  {
    forall t | t in Turns(Tail(log)) ensures CoverTo(log) < t <= CoverTo(log) + tail {
      var e :| e in Tail(log) && e.turn == t;
      assert e in log && Uncovered(TailFrom(log))(e);
    }
    FewTurns(Turns(Tail(log)), CoverTo(log), tail);
    NothingCutOff(log, tail);
  }

  /** An event that memory still tells: in the summary, or past it and then printed if spoken. */
  predicate Kept(log: seq<Event>, tail: nat, e: Event) {
    InSummary(log, e.text) || (e.turn > CoverTo(log) && (e.kind.Utterance? ==> e in Recent(log, tail)))
  }

  /** Memory tells every event of turn 1 or later. */
  predicate KeepsAll(log: seq<Event>, tail: nat) {
    forall e <- log :: e.turn >= 1 ==> Kept(log, tail, e)
  }

  lemma NewestKeepsAll(cfg: Config, s: State, sid: string, ts: string, log: seq<Event>)
    requires cfg.tail >= 1 && Inv(cfg, s) && Careful(PriorCover(s.log), Minus(OrZero(s.lastTurn), cfg.tail))
    requires log == s.log + [SummaryFor(cfg, s, sid, ts)]
    ensures KeepsAll(log, cfg.tail)
  {
    var last := OrZero(s.lastTurn);
    NewestSummary(s.log, SummaryFor(cfg, s, sid, ts));
    CarefulRemembers(s.log, cfg.tail, last, OrZero(s.epoch) + 1, sid, ts);
    TailIsWhole(log, cfg.tail, last);
    forall e | e in log && e.turn >= 1 ensures Kept(log, cfg.tail, e) {
      if e.turn > CoverTo(log) && e.kind.Utterance? {
        assert Uncovered(TailFrom(log))(e);
        assert e in Tail(log);
      }
    }
  }

  lemma LogAfter(cfg: Config, s: State, a: Action)
    requires Appends(cfg, s, a)
    ensures Next(cfg, s, a).log == s.log + [SummaryFor(cfg, s, a.sid, a.ts)]
  {}

  lemma CompactedKeepsAll(cfg: Config, s: State, a: Action, log: seq<Event>)
    requires cfg.tail >= 1 && Inv(cfg, s) && Appends(cfg, s, a) && CarefulAction(cfg, s, a)
    requires log == Next(cfg, s, a).log
    ensures KeepsAll(log, cfg.tail)
  {
    LogAfter(cfg, s, a);
    NewestKeepsAll(cfg, s, a.sid, a.ts, log);
  }

  /** Compaction forgets nothing: in every run whose compactions are set off by live turns, each
      compaction leaves every event of turn 1 or later in its summary or in the printed tail. */
  lemma CompactionForgetsNothing(cfg: Config, run: seq<Action>, a: Action, s: State)
    requires cfg.tail >= 1 && LegalRun(cfg, Empty(), run) && RunByLiveTurns(cfg, Empty(), run)
    requires s == After(cfg, Empty(), run) && Appends(cfg, s, a) && ByLiveTurns(cfg, s, a)
    ensures KeepsAll(Next(cfg, s, a).log, cfg.tail)
  {
    LiveTurnsAreCareful(cfg, Empty(), run);
    RunKeeps(cfg, Empty(), run);
    StartBehindAtEnd(cfg, Empty(), run);
    CompactedKeepsAll(cfg, s, a, Next(cfg, s, a).log);
  }

  lemma {:induction false} StartBehindAtEnd(cfg: Config, s: State, run: seq<Action>)
    requires PriorCover(s.log).fromTurn <= PriorCover(s.log).toTurn
    requires cfg.tail >= 1 && LegalRun(cfg, s, run) && RunByLiveTurns(cfg, s, run)
    ensures var end := PriorCover(After(cfg, s, run).log); end.fromTurn <= end.toTurn
    decreases |run|
  {
    if run != [] {
      StartStaysBehind(cfg, s, run[0]);
      StartBehindAtEnd(cfg, Next(cfg, s, run[0]), run[1..]);
    }
  }

  /** The same for any trigger, as long as every compaction is careful. */
  lemma CarefulForgetsNothing(cfg: Config, run: seq<Action>, a: Action, s: State)
    requires cfg.tail >= 1 && LegalRun(cfg, Empty(), run) && CarefulRun(cfg, Empty(), run)
    requires s == After(cfg, Empty(), run) && Appends(cfg, s, a) && CarefulAction(cfg, s, a)
    ensures KeepsAll(Next(cfg, s, a).log, cfg.tail)
  {
    RunKeeps(cfg, Empty(), run);
    CompactedKeepsAll(cfg, s, a, Next(cfg, s, a).log);
  }

  // ---------------------------------------------------------------- the condition is exact

  /** A log with these covers and this last turn that remembers what it covers. */
  ghost predicate Fits(log: seq<Event>, cover: Covers, lastTurn: nat) {
    PriorCover(log) == cover && Remembers(log, cover.toTurn) && InTurnOrder(log) && LastTurn(log) == lastTurn
  }

  /** Every log with these covers, this last turn and what it covers remembered is compacted
      into one that remembers what it then covers. */
  ghost predicate AlwaysRemembers(cover: Covers, tail: nat, lastTurn: nat) {
    forall log, epoch, sid, ts | Fits(log, cover, lastTurn) ::
      Remembers(log + [NextSummary(log, tail, lastTurn, epoch, sid, ts)], Minus(lastTurn, tail))
  }

  function Spoken(turn: nat, text: string): Event {
    Event("", turn, "", User, Utterance, text, false, None, None, None)
  }

  function Rollup(cover: Covers): Event {
    Event("", 0, "", System, Summary, "", false, Some(cover), None, None)
  }

  /** A log whose turn `to + 1` the next compaction skips. */
  function Skipped(cover: Covers, lastTurn: nat): seq<Event> {
    [Rollup(cover), Spoken(cover.toTurn + 1, "x"), Spoken(lastTurn, "")]
  }

  lemma SkippedIsForgotten(cover: Covers, tail: nat, lastTurn: nat, log: seq<Event>)
    requires tail >= 1 && cover.toTurn < Minus(lastTurn, tail) && cover.fromTurn > cover.toTurn
    requires log == Skipped(cover, lastTurn)
    ensures PriorCover(log) == cover && Remembers(log, cover.toTurn) && InTurnOrder(log) && LastTurn(log) == lastTurn
    ensures !Remembers(log + [NextSummary(log, tail, lastTurn, 1, "", "")], Minus(lastTurn, tail))
  {
    SkippedCover(cover, lastTurn, log);
    SkippedInOrder(cover, lastTurn, log);
    SkippedByNext(cover, tail, lastTurn, log, log[1], NextSummary(log, tail, lastTurn, 1, "", ""));
  }

  lemma SkippedInOrder(cover: Covers, lastTurn: nat, log: seq<Event>)
    requires log == Skipped(cover, lastTurn) && cover.toTurn < lastTurn
    ensures Remembers(log, cover.toTurn) && InTurnOrder(log)
    ensures log[1] in log && log[1].text == "x" && log[1].turn == cover.toTurn + 1
  {}

  lemma SkippedByNext(cover: Covers, tail: nat, lastTurn: nat, log: seq<Event>, e: Event, s: Event)
    requires tail >= 1 && cover.toTurn < Minus(lastTurn, tail) && cover.fromTurn > cover.toTurn
    requires forall x <- log :: x.turn <= cover.toTurn + 1 || x.turn == lastTurn
    requires PriorCover(log) == cover && PriorText(log) == Some("")
    requires e in log && e.text == "x" && e.turn == cover.toTurn + 1
    requires s == NextSummary(log, tail, lastTurn, 1, "", "")
    ensures !Remembers(log + [s], Minus(lastTurn, tail))
  {
    NothingRolled(log, tail, lastTurn);
    Unremembered(log, s, e, Minus(lastTurn, tail));
  }

  /** Rolling no event into an empty summary leaves it empty. */
  lemma NothingRolled(log: seq<Event>, tail: nat, lastTurn: nat)
    requires PriorText(log) == Some("") || PriorText(log) == None
    requires forall e <- log :: !Covering(PriorCover(log).fromTurn, Minus(lastTurn, tail))(e)
    ensures Rolled(PriorText(log), Range(log, tail, lastTurn)) == ""
  {
    WhereNone(log, Covering(PriorCover(log).fromTurn, Minus(lastTurn, tail)));
    EmptyRolled("");
  }

  lemma SkippedCover(cover: Covers, lastTurn: nat, log: seq<Event>)
    requires log == Skipped(cover, lastTurn) && cover.toTurn < lastTurn
    ensures PriorCover(log) == cover && PriorText(log) == Some("") && LastTurn(log) == lastTurn
  {
    var first, second := [log[0]], [log[0], log[1]];
    assert log == second + [log[2]] && second == first + [log[1]] && first == [] + [log[0]];
    NewestSummary([], log[0]);
    NotASummary(first, log[1]);
    NotASummary(second, log[2]);
    assert log[2] in log;
  }

  lemma Unremembered(log: seq<Event>, s: Event, e: Event, through: nat)
    requires e in log && e.text != "" && TrimEnd(e.text) == e.text && 1 <= e.turn <= through
    requires s.kind.Summary? && s.covers.Some? && s.text == ""
    ensures !Remembers(log + [s], through)
  {
    NewestSummary(log, s);
    assert e in log + [s];
    assert !InSummary(log + [s], e.text);
  }

  lemma EmptyRolled(prior: string)
    requires prior == ""
    ensures Rolled(Some(prior), []) == "" && Rolled(None, []) == ""
  {
    assert Opening(Some(prior)) + Bullets([]) == "\n";
    assert TrimEnd("\n") == TrimEnd("");
  }

  /** Exactly the careful compactions remember: one that starts past the old end and moves the
      end forward loses some log's turn. */
  lemma CarefulIsExact(cover: Covers, tail: nat, lastTurn: nat)
    requires tail >= 1
    ensures AlwaysRemembers(cover, tail, lastTurn) <==> Careful(cover, Minus(lastTurn, tail))
  {
    if Careful(cover, Minus(lastTurn, tail)) {
      forall log, epoch, sid, ts | Fits(log, cover, lastTurn)
        ensures Remembers(log + [NextSummary(log, tail, lastTurn, epoch, sid, ts)], Minus(lastTurn, tail))
      {
        CarefulRemembers(log, tail, lastTurn, epoch, sid, ts);
      }
    } else {
      SkippedIsForgotten(cover, tail, lastTurn, Skipped(cover, lastTurn));
    }
  }

  // ---------------------------------------------------------------- and it can be reached

  lemma {:induction false} LinesHoldTexts(events: seq<Event>, persona: string, e: Event)
    requires e in events
    ensures |UtteranceLines(events, persona)| >= |e.text|
  {
    var n := |events| - 1;
    if e != events[n] {
      assert e in events[..n];
      LinesHoldTexts(events[..n], persona, e);
    } else {
      LineHoldsText(e, persona);
    }
  }

  lemma LineHoldsText(e: Event, persona: string)
    ensures |UtteranceLine(e, persona)| >= |e.text|
  {}

  lemma PageHoldsTexts(log: seq<Event>, n: nat, e: Event)
    requires e in Recent(log, n)
    ensures |MemoryText(log, n)| >= |e.text|
  {
    LinesHoldTexts(Recent(log, n), Persona(log), e);
    PageHoldsLines(PartsOf(log, n));
  }

  lemma PageHoldsLines(p: Parts)
    ensures |Page(p)| >= |UtteranceLines(p.recent, p.persona)|
  {}

  /** A first turn long enough to exceed the token budget is compacted at once, into nothing. */
  lemma EarlyCompaction(cfg: Config, first: Event, s: State)
    requires cfg.tail >= 1 && first.kind.Utterance? && first.turn == 1
    requires |first.text| >= 4 * (cfg.budget + 1)
    requires s == Said(Empty(), first)
    ensures Triggered(cfg, s) && SummaryFor(cfg, s, "", "").text == ""
    ensures SummaryFor(cfg, s, "", "").covers == Some(Covers(1, 0))
  {
    var log := s.log;
    assert log == [] + [first] && log[..0] == [];
    NotASummary([], first);
    assert Uncovered(TailFrom(log))(first);
    assert first in Tail(log);
    forall t | t in Turns(Tail(log)) ensures 0 < t <= 1 {
      var e :| e in Tail(log) && e.turn == t;
      assert e in log;
    }
    FewTurns(Turns(Tail(log)), 0, 1);
    NothingCutOff(log, cfg.tail);
    PageHoldsTexts(log, cfg.tail, first);
    NothingRolled(log, cfg.tail, 1);
  }

  /** The next compaction, whatever sets it off, then starts past the first turn: its text is in
      no summary, and the tail begins after it. */
  lemma LateCompaction(cfg: Config, first: Event, summary: Event, later: Event, s: State)
    requires cfg.tail >= 1 && first.turn == 1 && TrimEnd(first.text) != ""
    requires summary.kind.Summary? && summary.text == "" && summary.covers == Some(Covers(1, 0)) && summary.turn == 1
    requires !later.kind.Summary? && later.turn == 2 * cfg.tail + 1
    requires s.log == [first, summary] + [later] && s.lastTurn == Some(later.turn)
    ensures Triggered(cfg, s)
    ensures var log := s.log + [SummaryFor(cfg, s, "", "")]; !Kept(log, cfg.tail, first)
  {
    LateCover(first, summary, later, s.log);
    NothingRolled(s.log, cfg.tail, later.turn);
    ForgottenBy(s.log, SummaryFor(cfg, s, "", ""), first, cfg.tail);
  }

  lemma LateCover(first: Event, summary: Event, later: Event, log: seq<Event>)
    requires summary.kind.Summary? && summary.text == "" && summary.covers == Some(Covers(1, 0))
    requires !later.kind.Summary? && log == [first, summary] + [later]
    ensures PriorCover(log) == Covers(1, 0) && PriorText(log) == Some("")
  {
    assert [first, summary] == [first] + [summary];
    NewestSummary([first], summary);
    NotASummary([first, summary], later);
  }

  lemma ForgottenBy(log: seq<Event>, s: Event, e: Event, tail: nat)
    requires s.kind.Summary? && s.covers.Some? && s.text == "" && e.turn <= s.covers.value.toTurn
    requires TrimEnd(e.text) != ""
    ensures !Kept(log + [s], tail, e)
  {
    NewestSummary(log, s);
  }

  /** For every configuration and every long first utterance: said, compacted by the token
      budget, followed by a turn that compaction by live turns answers, it is forgotten. */
  lemma LongFirstTurnIsForgotten(cfg: Config, first: Event, later: Event, compact: Action, run: seq<Action>)
    requires cfg.tail >= 1 && first.kind.Utterance? && first.turn == 1
    requires |first.text| >= 4 * (cfg.budget + 1) && TrimEnd(first.text) != ""
    requires later.kind.Utterance? && later.turn == 2 * cfg.tail + 1 <= U64_MAX
    requires compact == Compact("", "", Committed, Finished) && run == [Say(first), compact, Say(later)]
    ensures LegalRun(cfg, Empty(), run) && Appends(cfg, After(cfg, Empty(), run), compact)
    ensures !Kept(Next(cfg, After(cfg, Empty(), run), compact).log, cfg.tail, first)
  {
    var s1, s2, s3 := ForgettingRun(cfg, first, later, compact);
    ThreeSteps(cfg, run, s1, s2, s3);
    LateCompaction(cfg, first, s3.log[1], later, s3);
    LogAfter(cfg, s3, compact);
  }

  lemma ForgettingRun(cfg: Config, first: Event, later: Event, compact: Action)
    returns (s1: State, s2: State, s3: State)
    requires cfg.tail >= 1 && first.kind.Utterance? && first.turn == 1
    requires |first.text| >= 4 * (cfg.budget + 1)
    requires later.kind.Utterance? && later.turn == 2 * cfg.tail + 1 <= U64_MAX
    requires compact == Compact("", "", Committed, Finished)
    ensures Legal(Empty(), Say(first)) && s1 == Next(cfg, Empty(), Say(first))
    ensures Legal(s1, compact) && s2 == Next(cfg, s1, compact)
    ensures Legal(s2, Say(later)) && s3 == Next(cfg, s2, Say(later))
    ensures |s3.log| == 3 && s3.log[1].text == "" && s3.log[1].covers == Some(Covers(1, 0))
    ensures s3.log[1].kind.Summary? && s3.log[1].turn == 1
    ensures s3.log == [first, s3.log[1]] + [later] && s3.lastTurn == Some(later.turn)
  {
    s1 := Said(Empty(), first);
    EarlyCompaction(cfg, first, s1);
    var summary := SummaryFor(cfg, s1, "", "");
    s2 := Written(cfg.tail, s1, summary, Committed, Finished);
    s3 := Said(s2, later);
    ThreeEvents(s1, s2, s3, first, summary, later);
  }

  lemma ThreeEvents(s1: State, s2: State, s3: State, first: Event, summary: Event, later: Event)
    requires s1.log == [] + [first] && s2.log == s1.log + [summary] && s3.log == s2.log + [later]
    ensures |s3.log| == 3 && s3.log[1] == summary && s3.log == [first, summary] + [later]
  {
    assert s2.log == [first, summary];
  }

  lemma ThreeSteps(cfg: Config, run: seq<Action>, s1: State, s2: State, s3: State)
    requires |run| == 3 && Legal(Empty(), run[0]) && s1 == Next(cfg, Empty(), run[0])
    requires Legal(s1, run[1]) && s2 == Next(cfg, s1, run[1])
    requires Legal(s2, run[2]) && s3 == Next(cfg, s2, run[2])
    ensures LegalRun(cfg, Empty(), run) && After(cfg, Empty(), run) == s3
  {
    var tail1, tail2 := run[1..], run[1..][1..];
    assert tail1[0] == run[1] && tail2[0] == run[2] && tail2[1..] == [];
    assert LegalRun(cfg, s3, []) && LegalRun(cfg, s2, tail2) && LegalRun(cfg, s1, tail1);
    assert After(cfg, s3, []) == s3 && After(cfg, s2, tail2) == s3 && After(cfg, s1, tail1) == s3;
  }
}
