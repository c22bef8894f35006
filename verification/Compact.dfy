/** Compaction (crates/memoryd/src/compact.rs): the older turns are rolled into one summary
    event appended to the log, and the continuity memory is rendered again. */
module Compact {
  import opened Seqs
  import opened Wrappers
  import opened Events
  import opened Render

  // ---------------------------------------------------------------- rolling a summary

  /** Unicode white space, what `trim_end` removes. */
  predicate IsSpace(c: char) {
    || '\t' <= c <= '\r' || c == ' ' || c == '\U{85}' || c == '\U{a0}' || c == '\U{1680}'
    || '\U{2000}' <= c <= '\U{200a}' || c == '\U{2028}' || c == '\U{2029}' || c == '\U{202f}'
    || c == '\U{205f}' || c == '\U{3000}'
  }

  predicate Trimmed(s: string) { s == "" || !IsSpace(s[|s| - 1]) }

  function TrimEnd(s: string): (r: string)
    ensures Trimmed(r) && |r| <= |s| && r == s[..|r|]
    ensures forall i | |r| <= i < |s| :: IsSpace(s[i])
  {
    if Trimmed(s) then s else TrimEnd(s[..|s| - 1])
  }

  function Bullet(text: string): string { "- " + text + "\n" }

  function Bullets(events: seq<Event>): string {
    if events == [] then "" else Bullets(events[..|events| - 1]) + Bullet(events[|events| - 1].text)
  }

  function Opening(prior: Option<string>): string {
    match prior case Some(p) => p + "\n" case None => ""
  }

  function Rolled(prior: Option<string>, events: seq<Event>): string { TrimEnd(Opening(prior) + Bullets(events)) }

  method Roll(prior: Option<string>, events: seq<Event>) returns (out: string)
    ensures out == Rolled(prior, events)
  {
    var opening := match prior case Some(p) => p + "\n" case None => "";
    var bullets := "";
    for i := 0 to |events|
      invariant bullets == Bullets(events[..i])
    {
      assert events[..i + 1][..i] == events[..i];
      bullets := bullets + Bullet(events[i].text);
    }
    assert events[..|events|] == events;
    out := TrimEnd(opening + bullets);
  }

  // ---------------------------------------------------------------- one compaction

  /** The covers of the newest summary that has any. */
  function PriorCover(log: seq<Event>): Covers {
    if log == [] then Covers(0, 0)
    else
      var e := log[|log| - 1];
      if e.kind.Summary? && e.covers.Some? then e.covers.value else PriorCover(log[..|log| - 1])
  }

  function PriorText(log: seq<Event>): Option<string> {
    match LastSummary(log) case Some(s) => Some(s.text) case None => None
  }

  function Covering(fromTurn: nat, toTurn: nat): Event -> bool {
    (e: Event) => fromTurn < e.turn <= toTurn
  }

  function Range(log: seq<Event>, tail: nat, lastTurn: nat): seq<Event> {
    Where(log, Covering(PriorCover(log).fromTurn, Minus(lastTurn, tail)))
  }

  function NextSummary(log: seq<Event>, tail: nat, lastTurn: nat, epoch: nat, sid: string, ts: string): Event {
    Event(sid, lastTurn, ts, System, Summary, Rolled(PriorText(log), Range(log, tail, lastTurn)), false,
      Some(Covers(PriorCover(log).fromTurn + 1, Minus(lastTurn, tail))), Some(epoch), None)
  }

  datatype Config = Config(tail: nat, budget: nat)

  /** What compaction reads and writes: the log, two fields of the index, the memory page. */
  datatype State = State(log: seq<Event>, lastTurn: Option<nat>, epoch: Option<nat>, page: Option<string>)

  /** What the session's writer answers. */
  datatype Outcome = Committed | Duplicate | Refused

  /** How far compaction gets once the writer has answered: the epoch is not written, or the page
      is not, or both are. */
  datatype Finish = EpochLost | PageLost | Finished

  function OrZero(n: Option<nat>): nat { match n case Some(v) => v case None => 0 }

  function LiveTurns(s: State): nat { Minus(OrZero(s.lastTurn), PriorCover(s.log).toTurn) }

  predicate Triggered(cfg: Config, s: State) {
    LiveTurns(s) > cfg.tail * 2 || |MemoryText(s.log, cfg.tail)| / 4 > cfg.budget
  }

  function SummaryFor(cfg: Config, s: State, sid: string, ts: string): Event {
    NextSummary(s.log, cfg.tail, OrZero(s.lastTurn), OrZero(s.epoch) + 1, sid, ts)
  }

  /** The summary is appended when the writer commits it; then the epoch and the page follow. */
  function Written(tail: nat, s: State, summary: Event, outcome: Outcome, finish: Finish): State {
    if outcome.Refused? then s
    else
      var t := if outcome.Committed? then Said(s, summary) else s;
      if finish.EpochLost? then t
      else if finish.PageLost? then t.(epoch := summary.epoch)
      else t.(epoch := summary.epoch, page := Some(MemoryText(t.log, tail)))
  }

  function Compacted(cfg: Config, s: State, sid: string, ts: string, outcome: Outcome, finish: Finish): State {
    if Triggered(cfg, s) then Written(cfg.tail, s, SummaryFor(cfg, s, sid, ts), outcome, finish) else s
  }

  datatype Answer = NotNeeded | Done(epoch: nat, tokens: nat) | Failed

  class Compactor {
    const cfg: Config
    var log: seq<Event>
    var lastTurn: Option<nat>
    var epoch: Option<nat>
    var page: Option<string>

    constructor (cfg: Config)
      ensures this.cfg == cfg && View() == Empty()
    {
      this.cfg := cfg;
      log, lastTurn, epoch, page := [], None, None, None;
    }

    function View(): State reads this { State(log, lastTurn, epoch, page) }

    /** `outcome` is the writer's answer if it is asked. An error after it leaves what was
        already written. */
    method MaybeCompact(sid: string, ts: string, outcome: Outcome, finish: Finish) returns (answer: Answer)
      modifies this
      ensures View() == Compacted(cfg, old(View()), sid, ts, outcome, finish)
      ensures answer.NotNeeded? <==> !Triggered(cfg, old(View()))
      ensures answer.Done? <==> Triggered(cfg, old(View())) && !outcome.Refused? && finish.Finished?
      ensures answer.Done? ==> page.Some? && epoch == Some(answer.epoch) && answer.tokens == |page.value| / 4
    {
      var due := Due();
      if !due { return NotNeeded; }
      var event := Summarise(sid, ts);
      answer := Write(event, outcome, finish);
    }

    method Write(event: Event, outcome: Outcome, finish: Finish) returns (answer: Answer)
      requires event.epoch.Some?
      modifies this
      ensures View() == Written(cfg.tail, old(View()), event, outcome, finish)
      ensures if outcome.Refused? || !finish.Finished? then answer.Failed?
              else page.Some? && epoch == event.epoch && answer == Done(event.epoch.value, |page.value| / 4)
    {
      match outcome {
        case Refused => return Failed;
        case Duplicate =>
        case Committed => log, lastTurn := log + [event], Some(event.turn);
      }
      if finish.EpochLost? { return Failed; }
      epoch := event.epoch;
      if finish.PageLost? { return Failed; }
      var memory := RenderMemory(log, cfg.tail);
      page := Some(memory);
      answer := Done(event.epoch.value, |memory| / 4);
    }

    method Due() returns (due: bool)
      ensures due == Triggered(cfg, View())
    {
      var live := Minus(OrZero(lastTurn), PriorCover(log).toTurn);
      if live > cfg.tail * 2 { return true; }
      var memory := RenderMemory(log, cfg.tail);
      due := |memory| / 4 > cfg.budget;
    }

    method Summarise(sid: string, ts: string) returns (event: Event)
      ensures event == SummaryFor(cfg, View(), sid, ts)
    {
      var cover, last := PriorCover(log), OrZero(lastTurn);
      var coverTo := Minus(last, cfg.tail);
      var text := Roll(PriorText(log), Where(log, Covering(cover.fromTurn, coverTo)));
      event := Event(sid, last, ts, System, Summary, text, false,
        Some(Covers(cover.fromTurn + 1, coverTo)), Some(OrZero(epoch) + 1), None);
    }
  }

  function Empty(): State { State([], None, None, None) }

  function Said(s: State, e: Event): State { s.(log := s.log + [e], lastTurn := Some(e.turn)) }
}
