/** INV-1 under a TTS that may leave the end of a clause uncovered, as the in-process one does when
    its last audio buffer is too short: how far the committed text still is the input. */
module Coverage {
  import opened Seqs
  import opened Chunking
  import opened Pipeline
  import opened PipelineSafety

  /** How far the covered text and the ledger agree clause by clause: through every clause covered
      to its end, and the covered part of the first one that is not. */
  function Reached(r: Reach, ledger: seq<string>): nat {
    if ledger == [] then 0
    else if r(ledger[0]) >= |ledger[0]| then |ledger[0]| + Reached(r, ledger[1..])
    else r(ledger[0])
  }

  lemma {:induction false} PartsFirst(r: Reach, first: string, later: seq<string>)
    ensures Parts(r, [first] + later) == [Part(r, first)] + Parts(r, later)
  {
    var all := [first] + later;
    if later == [] {
      assert all == [first] && [first][..0] == [];
      assert [] + [Part(r, first)] == [Part(r, first)] + [];
    } else {
      var n := |later| - 1;
      assert all[..|all| - 1] == [first] + later[..n] && all[|all| - 1] == later[n];
      PartsFirst(r, first, later[..n]);
      assert ([Part(r, first)] + Parts(r, later[..n])) + [Part(r, later[n])]
        == [Part(r, first)] + (Parts(r, later[..n]) + [Part(r, later[n])]);
    }
  }

  lemma JoinFirst(r: Reach, ledger: seq<string>)
    requires ledger != []
    ensures Join(ledger) == ledger[0] + Join(ledger[1..])
    ensures Join(Parts(r, ledger)) == Part(r, ledger[0]) + Join(Parts(r, ledger[1..]))
  {
    assert ledger == [ledger[0]] + ledger[1..];
    PartsFirst(r, ledger[0], ledger[1..]);
    JoinCons(Part(r, ledger[0]), Parts(r, ledger[1..]));
  }

  lemma PartIs(r: Reach, text: string)
    requires r(text) <= |text|
    ensures Part(r, text) == text[..r(text)]
  {}

  /** Up to there they are the same text, and the covered text is never longer. */
  lemma {:induction false} SameUpToGap(r: Reach, ledger: seq<string>)
    requires forall text <- ledger :: r(text) <= |text|
    ensures var n := Reached(r, ledger);
      && n <= |Join(Parts(r, ledger))| <= |Join(ledger)|
      && Join(Parts(r, ledger))[..n] == Join(ledger)[..n]
  {
    if ledger != [] {
      var clause, later := ledger[0], ledger[1..];
      assert clause in ledger && forall text <- later :: text in ledger;
      SameUpToGap(r, later);
      JoinFirst(r, ledger);
      PartIs(r, clause);
      ReachedFirst(r, ledger, clause, later);
      SameStart(clause, Part(r, clause), Join(later), Join(Parts(r, later)), Reached(r, later), Reached(r, ledger));
    }
  }

  lemma ReachedFirst(r: Reach, ledger: seq<string>, clause: string, later: seq<string>)
    requires ledger != [] && clause == ledger[0] && later == ledger[1..] && r(clause) <= |clause|
    ensures Reached(r, ledger) == if r(clause) == |clause| then |clause| + Reached(r, later) else r(clause)
  {}

  lemma SameStart(clause: string, part: string, later: string, parts: string, n: nat, reached: nat)
    requires |part| <= |clause| && part == clause[..|part|]
    requires n <= |parts| <= |later| && parts[..n] == later[..n]
    requires reached == if |part| == |clause| then |clause| + n else |part|
    ensures reached <= |part + parts| <= |clause + later|
    ensures (part + parts)[..reached] == (clause + later)[..reached]
  {
    if |part| == |clause| {
      assert (part + parts)[..reached] == part + parts[..n];
      assert (clause + later)[..reached] == clause + later[..n];
    }
  }

  lemma PrefixCut(a: string, b: string, c: string, n: nat)
    requires n <= |b| <= |c| && b[..n] == c[..n] && IsPrefix(a, b) && |a| <= n
    ensures IsPrefix(a, c)
  {
    assert b[..n][..|a|] == b[..|a|] && c[..n][..|a|] == c[..|a|];
  }

  /** The skipped text shows: what is covered after it begins differently. */
  predicate GapShows(r: Reach, ledger: seq<string>) {
    var n := Reached(r, ledger);
    n < |Join(Parts(r, ledger))| && n < |Join(ledger)| ==> Join(Parts(r, ledger))[n] != Join(ledger)[n]
  }

  /** Covered text is clause text as long as it does not go past the first gap; and when the gap
      shows, exactly as long. */
  lemma CoveredTextExactly(r: Reach, ledger: seq<string>, text: string)
    requires forall clause <- ledger :: r(clause) <= |clause|
    requires IsPrefix(text, Join(Parts(r, ledger)))
    ensures |text| <= Reached(r, ledger) ==> IsPrefix(text, Join(ledger))
    ensures GapShows(r, ledger) ==> (IsPrefix(text, Join(ledger)) <==> |text| <= Reached(r, ledger))
  {
    SameUpToGap(r, ledger);
    var n := Reached(r, ledger);
    if |text| <= n {
      PrefixCut(text, Join(Parts(r, ledger)), Join(ledger), n);
    } else {
      assert text[n] == Join(Parts(r, ledger))[n];
      assert IsPrefix(text, Join(ledger)) ==> text[n] == Join(ledger)[n];
    }
  }

  lemma PrefixOfPrefix(a: string, b: string, c: string)
    requires IsPrefix(b, c) && |a| <= |b|
    ensures IsPrefix(a, b) <==> IsPrefix(a, c)
  {
    assert c[..|b|][..|a|] == c[..|a|];
  }

  /** INV-1 for any TTS that covers no more than the clauses: in every reachable state the text that
      barge-in commits is a prefix of the input as long as it does not go past the covered part of
      the first clause left uncovered, and exactly as long when the gap shows. */
  lemma CommitsInputUpToGap(u: Setup, gen: nat, deltas: seq<string>, steps: seq<Step>, playedMs: nat)
    requires Good(u.finder, u.max) && Fits(u.tts) && Runs(u, Start(gen, deltas), steps)
    ensures var s := Run(u, Start(gen, deltas), steps);
      var r := ReachOf(u.tts);
      var text := AbortText(s, playedMs);
      && (|text| <= Reached(r, s.ledger) ==> IsPrefix(text, Join(deltas)))
      && (GapShows(r, s.ledger) ==> (IsPrefix(text, Join(deltas)) <==> |text| <= Reached(r, s.ledger)))
  {
    var s := Run(u, Start(gen, deltas), steps);
    CommitsWhatIsCovered(u, gen, deltas, steps, playedMs);
    UpToGap(ReachOf(u.tts), s.ledger, AbortText(s, playedMs), Played(s) + FaceText(s), Join(deltas));
  }

  lemma UpToGap(r: Reach, ledger: seq<string>, text: string, heard: string, whole: string)
    requires forall clause <- ledger :: r(clause) <= |clause|
    requires IsPrefix(text, heard) && IsPrefix(heard, Join(Parts(r, ledger))) && IsPrefix(Join(ledger), whole)
    ensures |text| <= Reached(r, ledger) ==> IsPrefix(text, whole)
    ensures GapShows(r, ledger) ==> (IsPrefix(text, whole) <==> |text| <= Reached(r, ledger))
  {
    PrefixOfPrefix(text, heard, Join(Parts(r, ledger)));
    SameUpToGap(r, ledger);
    CoveredTextExactly(r, ledger, text);
    PrefixOfPrefix(text, Join(ledger), whole);
  }
}
