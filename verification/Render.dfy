/** The continuity memory (crates/vihs-core/src/render.rs): the newest summary, then the last
    turns word for word. */
module Render {
  import opened Seqs
  import opened Wrappers
  import opened Events
  import Json

  const U64_MAX: nat := 0xffff_ffff_ffff_ffff

  function IsPersona(): Event -> bool {
    (e: Event) => e.role.System? && !e.kind.Summary? && e.owner.None?
  }

  function Persona(events: seq<Event>): string {
    var notes := Where(events, IsPersona());
    if notes == [] then "Assistant" else notes[0].text
  }

  function ShortId(events: seq<Event>): string {
    if events == [] then "????" else if |events[0].sid| < 4 then events[0].sid else events[0].sid[..4]
  }

  function Clock(ts: string): string { if |ts| >= 16 then ts[11..16] else "--:--" }

  function UtteranceLine(e: Event, persona: string): string {
    "**" + (if e.role.User? then "User" else persona) + "** (" + Clock(e.ts) + "): " + e.text
    + (if e.interrupted then " ⟪interrupted⟫" else "") + "\n"
  }

  function UtteranceLines(events: seq<Event>, persona: string): string {
    if events == [] then ""
    else UtteranceLines(events[..|events| - 1], persona) + UtteranceLine(events[|events| - 1], persona)
  }

  /** `str::lines`: split at line feeds, a carriage return before one belongs to it, and
      nothing follows the last. */
  function Lines(text: string): seq<string> {
    if text == "" then []
    else
      var n := LineLength(text);
      if n == |text| then [text]
      else [if n > 0 && text[n - 1] == '\r' then text[..n - 1] else text[..n]] + Lines(text[n + 1..])
  }

  function LineLength(text: string): (n: nat)
    ensures n <= |text| && '\n' !in text[..n] && (n < |text| ==> text[n] == '\n')
  {
    if text == "" || text[0] == '\n' then 0 else 1 + LineLength(text[1..])
  }

  function Quoted(lines: seq<string>): string {
    if lines == [] then "" else Quoted(lines[..|lines| - 1]) + "> " + lines[|lines| - 1] + "\n"
  }

  function CoverTo(events: seq<Event>): nat {
    match LastSummary(events)
    case Some(s) => (match s.covers case Some(c) => c.toTurn case None => 0)
    case None => 0
  }

  /** The first turn past the summary; the addition saturates. */
  function TailFrom(events: seq<Event>): nat {
    if CoverTo(events) >= U64_MAX then U64_MAX else CoverTo(events) + 1
  }

  function Uncovered(tailFrom: nat): Event -> bool {
    (e: Event) => e.kind.Utterance? && e.turn >= tailFrom
  }

  function Tail(events: seq<Event>): seq<Event> { Where(events, Uncovered(TailFrom(events))) }

  function Turns(events: seq<Event>): set<nat> { set e <- events :: e.turn }

  function AtLeastOne(n: nat): nat { if n == 0 then 1 else n }

  predicate FewFrom(tail: seq<Event>, n: nat, p: nat)
    requires p <= |tail|
  {
    |Turns(tail[p..])| < AtLeastOne(n)
  }

  /** Some utterance of this turn is followed by fewer than `n` distinct turns. */
  predicate IsRecent(tail: seq<Event>, n: nat, turn: nat) {
    exists p | 0 < p <= |tail| :: FewFrom(tail, n, p) && tail[p - 1].turn == turn
  }

  function RecentIn(tail: seq<Event>, n: nat): Event -> bool { (e: Event) => IsRecent(tail, n, e.turn) }

  /** The utterances printed word for word. */
  function Recent(events: seq<Event>, n: nat): seq<Event> {
    Where(Tail(events), RecentIn(Tail(events), n))
  }

  function Heading(persona: string, sid: string, lastTurn: nat, summary: Option<Event>): string {
    "# Session " + sid + " — Continuity Memory\n" + "Persona: \"" + persona + "\" · Turns: " + Json.IntText(lastTurn)
    + (match summary
       case None => ""
       case Some(s) =>
         " · Compacted through turn " + Json.IntText(match s.covers case Some(c) => c.toTurn case None => 0))
    + "\n\n"
  }

  function SummaryBlock(summary: Option<Event>, coverTo: nat): string {
    match summary
    case None => ""
    case Some(s) =>
      var c := match s.covers case Some(c) => c case None => Covers(1, coverTo);
      "## Summary (turns " + Json.IntText(c.fromTurn) + "–" + Json.IntText(c.toTurn) + ")\n"
      + Quoted(Lines(s.text)) + "\n"
  }

  function RecentHeading(summary: Option<Event>, tailFrom: nat, lastTurn: nat): string {
    if summary.Some? then
      "## Recent turns (" + Json.IntText(tailFrom) + "–" + Json.IntText(lastTurn) + ", verbatim)\n"
    else "## Recent turns (verbatim)\n"
  }

  /** Everything a page is printed from. */
  datatype Parts = Parts(persona: string, sid: string, lastTurn: nat, summary: Option<Event>,
    coverTo: nat, tailFrom: nat, recent: seq<Event>)

  function PartsOf(events: seq<Event>, n: nat): Parts {
    Parts(Persona(events), ShortId(events), LastTurn(events), LastSummary(events), CoverTo(events),
          TailFrom(events), Recent(events, n))
  }

  function Page(p: Parts): string {
    Heading(p.persona, p.sid, p.lastTurn, p.summary) + SummaryBlock(p.summary, p.coverTo)
    + RecentHeading(p.summary, p.tailFrom, p.lastTurn) + UtteranceLines(p.recent, p.persona)
  }

  function MemoryText(events: seq<Event>, n: nat): string { Page(PartsOf(events, n)) }

  // ---------------------------------------------------------------- the loops

  /** The turns to keep, newest last: walk the tail backwards until enough are seen. */
  method SeenTurns(tail: seq<Event>, n: nat) returns (seen: seq<nat>)
    ensures forall t :: t in seen <==> IsRecent(tail, n, t)
    ensures forall i, j | 0 <= i < j < |seen| :: seen[i] != seen[j]
    ensures |seen| <= AtLeastOne(n)
  {
    seen := [];
    var p := |tail|;
    while p > 0 && (p == |tail| || |seen| < n)
      invariant 0 <= p <= |tail|
      invariant Walked(tail, n, p, seen)
    {
      StepBack(tail, n, p, seen);
      p := p - 1;
      if tail[p].turn !in seen { seen := [tail[p].turn] + seen; }
    }
    WalkedEnough(tail, n, p, seen);
  }

  ghost predicate Walked(tail: seq<Event>, n: nat, p: nat, seen: seq<nat>)
    requires p <= |tail|
  {
    && |seen| <= AtLeastOne(n) && (p < |tail| ==> seen != [])
    && SeenFrom(tail, p, seen)
    && forall q | p < q <= |tail| :: FewFrom(tail, n, q)
  }

  lemma StepBack(tail: seq<Event>, n: nat, p: nat, seen: seq<nat>)
    requires 0 < p <= |tail| && Walked(tail, n, p, seen) && (p == |tail| || |seen| < n)
    ensures Walked(tail, n, p - 1, if tail[p - 1].turn in seen then seen else [tail[p - 1].turn] + seen)
  {
    SeeOneMore(tail, p, seen);
    assert FewFrom(tail, n, p) by {
      if p == |tail| { assert tail[p..] == []; }
    }
  }

  lemma WalkedEnough(tail: seq<Event>, n: nat, p: nat, seen: seq<nat>)
    requires p <= |tail| && Walked(tail, n, p, seen) && (p == 0 || (p < |tail| && |seen| >= n))
    ensures forall t :: t in seen <==> IsRecent(tail, n, t)
  {
    forall t ensures t in seen <==> IsRecent(tail, n, t) { RecentFrom(tail, n, p, t); }
  }

  /** `seen` lists the turns of the tail from `p` on, each once. */
  ghost predicate SeenFrom(tail: seq<Event>, p: nat, seen: seq<nat>)
    requires p <= |tail|
  {
    Lists(seen, Turns(tail[p..]))
  }

  lemma TurnsCons(e: Event, rest: seq<Event>)
    ensures Turns([e] + rest) == {e.turn} + Turns(rest)
  {
    forall t | t in Turns(rest) ensures t in Turns([e] + rest) {
      var x :| x in rest && x.turn == t;
      assert x in [e] + rest;
    }
    assert e in [e] + rest;
  }

  lemma SeeOneMore(tail: seq<Event>, p: nat, seen: seq<nat>)
    requires 0 < p <= |tail| && SeenFrom(tail, p, seen)
    ensures SeenFrom(tail, p - 1, if tail[p - 1].turn in seen then seen else [tail[p - 1].turn] + seen)
  {
    assert tail[p - 1..] == [tail[p - 1]] + tail[p..];
    TurnsCons(tail[p - 1], tail[p..]);
    ListsOneMore(seen, Turns(tail[p..]), tail[p - 1].turn);
  }

  ghost predicate Lists(seen: seq<nat>, turns: set<nat>) {
    && (forall t :: t in seen <==> t in turns)
    && (forall i, j | 0 <= i < j < |seen| :: seen[i] != seen[j])
    && |seen| == |turns|
  }

  lemma ListsOneMore(seen: seq<nat>, turns: set<nat>, turn: nat)
    requires Lists(seen, turns)
    ensures Lists(if turn in seen then seen else [turn] + seen, {turn} + turns)
  {
    if turn in seen {
      assert {turn} + turns == turns;
    } else {
      var more := [turn] + seen;
      forall i, j | 0 <= i < j < |more| ensures more[i] != more[j] {
        assert more[j] == seen[j - 1] && seen[j - 1] in seen;
        assert i > 0 ==> more[i] == seen[i - 1];
      }
    }
  }

  lemma RecentFrom(tail: seq<Event>, n: nat, p: nat, t: nat)
    requires p <= |tail|
    requires forall q | p < q <= |tail| :: FewFrom(tail, n, q)
    requires p == 0 || !FewFrom(tail, n, p)
    ensures t in Turns(tail[p..]) <==> IsRecent(tail, n, t)
  {
    if t in Turns(tail[p..]) {
      var e :| e in tail[p..] && e.turn == t;
      var i :| 0 <= i < |tail| - p && tail[p..][i] == e;
      assert FewFrom(tail, n, p + i + 1) && tail[p + i + 1 - 1].turn == t;
    }
    if IsRecent(tail, n, t) {
      var q :| 0 < q <= |tail| && FewFrom(tail, n, q) && tail[q - 1].turn == t;
      if q <= p {
        FewerTurns(tail, p, q);
      } else {
        assert tail[p..][q - 1 - p] == tail[q - 1];
      }
    }
  }

  /** A shorter end of the tail holds no more turns. */
  lemma FewerTurns(tail: seq<Event>, p: nat, q: nat)
    requires q <= p <= |tail|
    ensures |Turns(tail[p..])| <= |Turns(tail[q..])|
  {
    forall t | t in Turns(tail[p..]) ensures t in Turns(tail[q..]) {
      var e :| e in tail[p..] && e.turn == t;
      var i :| 0 <= i < |tail| - p && tail[p..][i] == e;
      assert tail[q..][p - q + i] == e;
    }
    SubsetSize(Turns(tail[p..]), Turns(tail[q..]));
  }

  method RenderMemory(events: seq<Event>, n: nat) returns (out: string)
    ensures out == MemoryText(events, n)
  {
    var persona, summary := Persona(events), LastSummary(events);
    out := Heading(persona, ShortId(events), LastTurn(events), summary);
    var quoted := "";
    if summary.Some? { quoted := QuoteSummary(summary.value, CoverTo(events)); }
    out := out + quoted + RecentHeading(summary, TailFrom(events), LastTurn(events));
    var keep := KeepRecent(Tail(events), n);
    var lines := PrintUtterances(keep, persona);
    out := out + lines;
  }

  method KeepRecent(tail: seq<Event>, n: nat) returns (keep: seq<Event>)
    ensures keep == Where(tail, RecentIn(tail, n))
  {
    var seen := SeenTurns(tail, n);
    keep := Where(tail, (e: Event) => e.turn in seen);
    WhereSame(tail, (e: Event) => e.turn in seen, RecentIn(tail, n));
  }

  method PrintUtterances(keep: seq<Event>, persona: string) returns (lines: string)
    ensures lines == UtteranceLines(keep, persona)
  {
    lines := "";
    for i := 0 to |keep|
      invariant lines == UtteranceLines(keep[..i], persona)
    {
      assert keep[..i + 1][..i] == keep[..i];
      lines := lines + UtteranceLine(keep[i], persona);
    }
    assert keep[..|keep|] == keep;
  }

  method QuoteSummary(s: Event, coverTo: nat) returns (out: string)
    ensures out == SummaryBlock(Some(s), coverTo)
  {
    var lines := Lines(s.text);
    var quoted := "";
    for i := 0 to |lines|
      invariant quoted == Quoted(lines[..i])
    {
      assert lines[..i + 1][..i] == lines[..i];
      quoted := quoted + "> " + lines[i] + "\n";
    }
    assert lines[..|lines|] == lines;
    var c := match s.covers case Some(c) => c case None => Covers(1, coverTo);
    out := "## Summary (turns " + Json.IntText(c.fromTurn) + "–" + Json.IntText(c.toTurn) + ")\n" + quoted + "\n";
  }

  // ---------------------------------------------------------------- which utterances

  /** Turns past the summary, later than `turn`, in which something was said. */
  function LaterTurns(events: seq<Event>, turn: nat): set<nat> {
    set e <- events | Uncovered(TailFrom(events))(e) && e.turn > turn :: e.turn
  }

  function Wanted(events: seq<Event>, n: nat): Event -> bool {
    (e: Event) => Uncovered(TailFrom(events))(e) && |LaterTurns(events, e.turn)| < AtLeastOne(n)
  }

  lemma {:induction false} WhereInOrder(events: seq<Event>, p: Event -> bool)
    requires InTurnOrder(events)
    ensures InTurnOrder(Where(events, p))
  {
    if events != [] {
      WhereInOrder(events[1..], p);
      var rest := Where(events[1..], p);
      forall i | 0 <= i < |rest| ensures events[0].turn <= rest[i].turn {
        assert rest[i] in events[1..];
        var k :| 0 <= k < |events| - 1 && events[1..][k] == rest[i];
        assert events[k + 1] == rest[i];
      }
    }
  }

  /** In a tail whose turns never decrease, recent means few greater turns. */
  lemma RecentInOrder(tail: seq<Event>, n: nat, turn: nat)
    requires InTurnOrder(tail) && turn in Turns(tail)
    ensures IsRecent(tail, n, turn) <==> |Greater(tail, turn)| < AtLeastOne(n)
  {
    var p := LastOf(tail, turn);
    GreaterAfter(tail, turn, p);
    if IsRecent(tail, n, turn) {
      var q :| 0 < q <= |tail| && FewFrom(tail, n, q) && tail[q - 1].turn == turn;
      FewerTurns(tail, p + 1, q);
    } else {
      assert !FewFrom(tail, n, p + 1) && tail[p + 1 - 1].turn == turn;
    }
  }

  function Greater(tail: seq<Event>, turn: nat): set<nat> { set e <- tail | e.turn > turn :: e.turn }

  /** The greater turns are those after the last utterance of this one. */
  lemma GreaterAfter(tail: seq<Event>, turn: nat, p: nat)
    requires InTurnOrder(tail) && p < |tail| && tail[p].turn == turn
    requires forall k | p < k < |tail| :: tail[k].turn != turn
    ensures Turns(tail[p + 1..]) == Greater(tail, turn)
  {
    forall t | t in Greater(tail, turn) ensures t in Turns(tail[p + 1..]) {
      var e :| e in tail && e.turn == t;
      var k :| 0 <= k < |tail| && tail[k] == e;
      assert k > p;
      assert tail[p + 1..][k - p - 1] == e;
    }
    forall t | t in Turns(tail[p + 1..]) ensures t in Greater(tail, turn) {
      var e :| e in tail[p + 1..] && e.turn == t;
      var k :| 0 <= k < |tail| - p - 1 && tail[p + 1..][k] == e;
      assert tail[p + 1 + k] == e && tail[p + 1 + k].turn != turn;
    }
  }

  lemma LastOf(tail: seq<Event>, turn: nat) returns (p: nat)
    requires turn in Turns(tail)
    ensures p < |tail| && tail[p].turn == turn
    ensures forall k | p < k < |tail| :: tail[k].turn != turn
  {
    var n := |tail| - 1;
    if tail[n].turn == turn {
      p := n;
    } else {
      var e :| e in tail && e.turn == turn;
      var k :| 0 <= k < |tail| && tail[k] == e;
      assert tail[..n][k] == e;
      p := LastOf(tail[..n], turn);
      assert forall k | p < k < n :: tail[..n][k].turn == tail[k].turn;
    }
  }

  /** The tail prints, in log order, exactly the utterances past the summary whose turn is
      among the last `n` distinct turns in which something was said past the summary. */
  lemma RecentMeaning(events: seq<Event>, n: nat)
    requires InTurnOrder(events)
    ensures Recent(events, n) == Where(events, Wanted(events, n))
  {
    var past, tail := Uncovered(TailFrom(events)), Tail(events);
    WhereInOrder(events, past);
    forall e | e in tail ensures RecentIn(tail, n)(e) == Wanted(events, n)(e) {
      RecentInOrder(tail, n, e.turn);
      assert Greater(tail, e.turn) == LaterTurns(events, e.turn);
    }
    WhereSame(tail, RecentIn(tail, n), Wanted(events, n));
    WhereTwice(events, past, Wanted(events, n));
    WhereSame(events, (e: Event) => past(e) && Wanted(events, n)(e), Wanted(events, n));
  }

  // ---------------------------------------------------------------- superseded summaries

  lemma WhereWithout(before: seq<Event>, s: Event, after: seq<Event>, p: Event -> bool)
    requires !p(s)
    ensures Where(before + ([s] + after), p) == Where(before + after, p)
  {
    WhereConcat(before, [s] + after, p);
    WhereConcat(before, after, p);
    assert ([s] + after)[1..] == after;
  }

  lemma {:induction false} LastSummaryConcat(a: seq<Event>, b: seq<Event>)
    requires LastSummary(b).Some?
    ensures LastSummary(a + b) == LastSummary(b)
  {
    var n := |b| - 1;
    assert (a + b)[|a + b| - 1] == b[n];
    if !b[n].kind.Summary? {
      assert (a + b)[..|a + b| - 1] == a + b[..n];
      LastSummaryConcat(a, b[..n]);
    }
  }

  lemma {:induction false} LastTurnConcat(a: seq<Event>, b: seq<Event>)
    ensures LastTurn(a + b) == if LastTurn(a) > LastTurn(b) then LastTurn(a) else LastTurn(b)
  {
    if b == [] {
      assert a + b == a;
    } else {
      var n := |b| - 1;
      assert (a + b)[..|a + b| - 1] == a + b[..n];
      LastTurnConcat(a, b[..n]);
    }
  }

  lemma LastTurnWithout(before: seq<Event>, s: Event, after: seq<Event>)
    requires exists e <- after :: s.turn <= e.turn
    ensures LastTurn(before + ([s] + after)) == LastTurn(before + after)
  {
    LastTurnConcat(before, [s] + after);
    LastTurnConcat([s], after);
    LastTurnConcat(before, after);
    assert [s][..0] == [];
  }

  lemma PersonaWithout(before: seq<Event>, s: Event, after: seq<Event>)
    requires s.kind.Summary?
    ensures Persona(before + ([s] + after)) == Persona(before + after)
  {
    WhereWithout(before, s, after, IsPersona());
  }

  lemma CoverWithout(before: seq<Event>, s: Event, after: seq<Event>)
    requires s.kind.Summary? && LastSummary(after).Some?
    ensures LastSummary(before + ([s] + after)) == LastSummary(before + after)
    ensures CoverTo(before + ([s] + after)) == CoverTo(before + after)
  {
    LastSummaryConcat([s], after);
    LastSummaryConcat(before, [s] + after);
    LastSummaryConcat(before, after);
  }

  lemma TailWithout(before: seq<Event>, s: Event, after: seq<Event>)
    requires s.kind.Summary? && LastSummary(after).Some?
    ensures Tail(before + ([s] + after)) == Tail(before + after)
  {
    CoverWithout(before, s, after);
    WhereWithout(before, s, after, Uncovered(TailFrom(before + after)));
  }

  /** A superseded summary leaves no trace: taking it out of a one-session log renders the
      same bytes. */
  lemma SupersededLeavesNoTrace(before: seq<Event>, s: Event, after: seq<Event>, n: nat)
    requires s.kind.Summary? && LastSummary(after).Some?
    requires InTurnOrder([s] + after)
    requires forall e <- before + after :: e.sid == s.sid
    ensures MemoryText(before + after, n) == MemoryText(before + ([s] + after), n)
  {
    LaterTurn(s, after);
    LastTurnWithout(before, s, after);
    PersonaWithout(before, s, after);
    CoverWithout(before, s, after);
    TailWithout(before, s, after);
    SameFirst(before, s, after);
    SameParts(before + after, before + ([s] + after), n);
  }

  lemma SameShortId(a: seq<Event>, b: seq<Event>)
    requires a != [] && b != [] && a[0].sid == b[0].sid
    ensures ShortId(a) == ShortId(b)
  {}

  lemma SameRecent(a: seq<Event>, b: seq<Event>, n: nat)
    requires Tail(a) == Tail(b)
    ensures Recent(a, n) == Recent(b, n)
  {}

  lemma SameTailFrom(a: seq<Event>, b: seq<Event>)
    requires CoverTo(a) == CoverTo(b)
    ensures TailFrom(a) == TailFrom(b)
  {}

  lemma SameParts(a: seq<Event>, b: seq<Event>, n: nat)
    requires a != [] && b != [] && a[0].sid == b[0].sid
    requires Persona(a) == Persona(b) && LastTurn(a) == LastTurn(b) && LastSummary(a) == LastSummary(b)
    requires CoverTo(a) == CoverTo(b) && Tail(a) == Tail(b)
    ensures PartsOf(a, n) == PartsOf(b, n)
  {
    SameShortId(a, b);
    SameRecent(a, b, n);
    SameTailFrom(a, b);
  }

  lemma LaterTurn(s: Event, after: seq<Event>)
    requires InTurnOrder([s] + after) && after != []
    ensures after[0] in after && s.turn <= after[0].turn
  {
    assert ([s] + after)[0].turn <= ([s] + after)[1].turn;
  }

  lemma SameFirst(before: seq<Event>, s: Event, after: seq<Event>)
    requires after != []
    requires forall e <- before + after :: e.sid == s.sid
    ensures (before + ([s] + after))[0].sid == s.sid == (before + after)[0].sid
  {
    assert (before + after)[0] in before + after;
  }

  /** With few enough turns past the summary nothing said there is cut off. */
  lemma NothingCutOff(events: seq<Event>, n: nat)
    requires |Turns(Tail(events))| <= AtLeastOne(n)
    ensures Recent(events, n) == Tail(events)
  {
    var tail := Tail(events);
    forall e | e in tail ensures RecentIn(tail, n)(e) {
      var p := LastOf(tail, e.turn);
      assert Turns(tail[p + 1..]) < Turns(tail) by {
        assert tail[p].turn in Turns(tail);
        assert forall x <- tail[p + 1..] :: x in tail && x.turn != e.turn;
      }
      StrictSubsetSize(Turns(tail[p + 1..]), Turns(tail));
      assert FewFrom(tail, n, p + 1) && tail[p + 1 - 1].turn == e.turn;
    }
    WhereAll(tail, RecentIn(tail, n));
  }

  lemma StrictSubsetSize(a: set<nat>, b: set<nat>)
    requires a < b
    ensures |a| < |b|
  {
    assert b == a + (b - a);
    assert b - a != {};
  }

  /** A tail of 0 prints what a tail of 1 prints, and that is never nothing: the last thing said
      past the summary is always there. */
  lemma TailZeroIsOne(events: seq<Event>)
    ensures MemoryText(events, 0) == MemoryText(events, 1)
    ensures Tail(events) != [] ==> Tail(events)[|Tail(events)| - 1] in Recent(events, 0)
  {
    var tail := Tail(events);
    forall turn ensures IsRecent(tail, 0, turn) == IsRecent(tail, 1, turn) {
      assert forall p | 0 < p <= |tail| :: FewFrom(tail, 0, p) == FewFrom(tail, 1, p);
    }
    WhereSame(tail, RecentIn(tail, 0), RecentIn(tail, 1));
    assert PartsOf(events, 0) == PartsOf(events, 1);
    if tail != [] {
      assert tail[|tail|..] == [] && Turns([]) == {};
      assert FewFrom(tail, 0, |tail|) && tail[|tail| - 1].turn == tail[|tail| - 1].turn;
      assert IsRecent(tail, 0, tail[|tail| - 1].turn);
    }
  }
}
