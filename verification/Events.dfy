/** The typed log event (crates/vihs-core/src/event.rs), the fields that rendering and
    compaction read. */
module Events {
  import opened Wrappers

  datatype Role = User | Assistant | System | Tool
  datatype Kind = Utterance | ToolCall | ToolResult | Note | Summary
  datatype Covers = Covers(fromTurn: nat, toTurn: nat)

  datatype Event = Event(
    sid: string, turn: nat, ts: string, role: Role, kind: Kind, text: string,
    interrupted: bool, covers: Option<Covers>, epoch: Option<nat>, owner: Option<string>)

  /** The events that satisfy `p`, in log order. */
  function Where(events: seq<Event>, p: Event -> bool): (r: seq<Event>)
    ensures forall e :: e in r <==> e in events && p(e)
  {
    if events == [] then []
    else if p(events[0]) then [events[0]] + Where(events[1..], p)
    else Where(events[1..], p)
  }

  lemma {:induction false} WhereSame(events: seq<Event>, p: Event -> bool, q: Event -> bool)
    requires forall e <- events :: p(e) == q(e)
    ensures Where(events, p) == Where(events, q)
  {
    if events != [] { WhereSame(events[1..], p, q); }
  }

  lemma {:induction false} WhereConcat(a: seq<Event>, b: seq<Event>, p: Event -> bool)
    ensures Where(a + b, p) == Where(a, p) + Where(b, p)
  {
    if a == [] {
      assert a + b == b;
    } else {
      assert (a + b)[1..] == a[1..] + b;
      WhereConcat(a[1..], b, p);
    }
  }

  lemma {:induction false} WhereTwice(events: seq<Event>, p: Event -> bool, q: Event -> bool)
    ensures Where(Where(events, p), q) == Where(events, (e: Event) => p(e) && q(e))
  {
    if events != [] {
      WhereTwice(events[1..], p, q);
      WhereSame(events[1..], (e: Event) => p(e) && q(e), (e: Event) => p(e) && q(e));
      if p(events[0]) {
        assert ([events[0]] + Where(events[1..], p))[1..] == Where(events[1..], p);
      }
    }
  }

  lemma {:induction false} WhereNone(events: seq<Event>, p: Event -> bool)
    requires forall e <- events :: !p(e)
    ensures Where(events, p) == []
  {
    if events != [] { WhereNone(events[1..], p); }
  }

  lemma {:induction false} WhereAll(events: seq<Event>, p: Event -> bool)
    requires forall e <- events :: p(e)
    ensures Where(events, p) == events
  {
    if events != [] { WhereAll(events[1..], p); }
  }

  function LastSummary(events: seq<Event>): (r: Option<Event>)
    ensures r.Some? ==> r.value in events && r.value.kind.Summary?
    ensures r.None? ==> forall e <- events :: !e.kind.Summary?
  {
    if events == [] then None
    else if events[|events| - 1].kind.Summary? then Some(events[|events| - 1])
    else LastSummary(events[..|events| - 1])
  }

  /** The greatest turn, 0 for no events. */
  function LastTurn(events: seq<Event>): (r: nat)
    ensures forall e <- events :: e.turn <= r
    ensures r == 0 || exists e <- events :: e.turn == r
  {
    if events == [] then 0
    else
      var before := LastTurn(events[..|events| - 1]);
      var turn := events[|events| - 1].turn;
      if turn > before then turn else before
  }

  predicate InTurnOrder(events: seq<Event>) {
    forall i, j | 0 <= i < j < |events| :: events[i].turn <= events[j].turn
  }
}
