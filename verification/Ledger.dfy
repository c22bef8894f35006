/** The INV-1 arithmetic of pod/vihs_pod/pipeline/ledger.py: what was heard, from the spans
    that finished playing and a proportional cut of the chunk in flight. */
module Ledger {
  import opened Seqs
  import opened Wrappers

  datatype PlayedSpan = PlayedSpan(clauseId: nat, start: nat, end: nat)

  datatype PartialChunk = PartialChunk(clauseId: nat, start: nat, chars: nat, durMs: int, playedMs: nat)

  function CommittedChars(p: PartialChunk): nat {
    if p.durMs <= 0 then 0 else (p.chars * p.playedMs) / p.durMs
  }

  /** A Python slice `s[a:b]`. */
  function Slice(s: string, a: nat, b: nat): string {
    var lo, hi := Min(a, |s|), Min(b, |s|);
    if lo < hi then s[lo..hi] else ""
  }

  function TextOf(clauses: map<nat, string>, id: nat): string {
    if id in clauses then clauses[id] else ""
  }

  function SpansText(clauses: map<nat, string>, played: seq<PlayedSpan>): string {
    if played == [] then ""
    else
      var last := played[|played| - 1];
      SpansText(clauses, played[..|played| - 1]) + Slice(TextOf(clauses, last.clauseId), last.start, last.end)
  }

  function PartialText(clauses: map<nat, string>, partial: Option<PartialChunk>): string {
    match partial
    case None => ""
    case Some(p) => Slice(TextOf(clauses, p.clauseId), p.start, p.start + CommittedChars(p))
  }

  method CommittedText(clauses: map<nat, string>, played: seq<PlayedSpan>, partial: Option<PartialChunk>)
    returns (text: string)
    ensures text == SpansText(clauses, played) + PartialText(clauses, partial)
  {
    text := "";
    for i := 0 to |played|
      invariant text == SpansText(clauses, played[..i])
    {
      assert played[..i + 1][..i] == played[..i] && text + "" == text;
      var span := played[i];
      var clause := TextOf(clauses, span.clauseId);
      var start, end := Min(span.start, |clause|), Min(span.end, |clause|);
      if end > start { text := text + clause[start..end]; }
    }
    assert played[..|played|] == played;
    text := text + PartialText(clauses, partial);
  }

  /** The cut is proportional, never more than the chunk covers, the whole chunk when it has
      played out, and it grows with the time played. */
  lemma CutIsProportional(p: PartialChunk, later: PartialChunk)
    requires p.durMs > 0 && p.playedMs <= later.playedMs <= p.durMs
    requires later == p.(playedMs := later.playedMs)
    ensures CommittedChars(p) <= CommittedChars(later) <= p.chars
    ensures CommittedChars(p) * p.durMs <= p.chars * p.playedMs < (CommittedChars(p) + 1) * p.durMs
    ensures later.playedMs == p.durMs ==> CommittedChars(later) == p.chars
  {
    CutGrows(p.chars, p.playedMs, later.playedMs, p.durMs);
    CutGrows(p.chars, later.playedMs, p.durMs, p.durMs);
    QuotientBounds(p.chars * p.playedMs, p.durMs);
    QuotientExact(p.chars, p.durMs);
  }

  lemma CutGrows(chars: nat, a: nat, b: nat, d: nat)
    requires d > 0 && a <= b
    ensures (chars * a) / d <= (chars * b) / d
  {
    MulMonotone(chars, a, b);
    QuotientMonotone(chars * a, chars * b, d);
  }

  lemma QuotientBounds(a: nat, d: nat)
    requires d > 0
    ensures a / d * d <= a < (a / d + 1) * d
  {}

  lemma QuotientMonotone(a: nat, b: nat, d: nat)
    requires d > 0 && a <= b
    ensures a / d <= b / d
  {
    QuotientBounds(a, d);
    QuotientBounds(b, d);
    if a / d > b / d { MulMonotone(d, b / d + 1, a / d); }
  }

  lemma QuotientExact(c: nat, d: nat)
    requires d > 0
    ensures (c * d) / d == c
  {
    var q := (c * d) / d;
    QuotientBounds(c * d, d);
    if q < c { MulMonotone(d, q + 1, c); }
    if c < q { MulMonotone(d, c + 1, q); }
  }
}
