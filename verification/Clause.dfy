/** The clause chunker between LLM and TTS (pod/vihs_pod/pipeline/clause.py). */
module Clause {
  import opened Chunking
  import opened Wrappers

  // ---------------------------------------------------------------- the boundary

  const ABBREV: seq<string> := ["mr.", "mrs.", "dr.", "e.g.", "i.e.", "etc.", "vs."]

  function Lower(s: string): string {
    if s == "" then "" else [if 'A' <= s[0] <= 'Z' then (s[0] as int + 32) as char else s[0]] + Lower(s[1..])
  }

  predicate EndsWith(s: string, suffix: string) { |suffix| <= |s| && s[|s| - |suffix|..] == suffix }

  /** The at most one character before, and the one after, position `i`. */
  function Before(buf: string, i: nat): string
    requires i < |buf|
  {
    if i == 0 then "" else buf[i - 1..i]
  }

  function After(buf: string, i: nat): string
    requires i < |buf|
  {
    if i + 1 == |buf| then "" else buf[i + 1..i + 2]
  }

  predicate IsDigitText(s: string) { s != "" && forall c <- s :: '0' <= c <= '9' }

  predicate EndsAbbreviation(buf: string, i: nat)
    requires i < |buf|
  {
    var tail := Lower(buf[if i < 4 then 0 else i - 4..i + 1]);
    exists k | 0 <= k < |ABBREV| :: EndsWith(tail, ABBREV[k])
  }

  /** A terminal that does not end a sentence: abbreviation, decimal or ellipsis. */
  predicate Excused(buf: string, i: nat)
    requires i < |buf|
  {
    || EndsAbbreviation(buf, i)
    || (buf[i] == '.' && IsDigitText(Before(buf, i)) && IsDigitText(After(buf, i)))
    || (buf[i] == '.' && (Before(buf, i) == "." || After(buf, i) == "."))
  }

  predicate Terminal(buf: string, i: nat)
    requires i < |buf|
  {
    buf[i] in ".?!" && (After(buf, i) == "" || After(buf, i) == " ")
  }

  predicate SoftBreak(buf: string, i: nat, min: nat)
    requires i < |buf|
  {
    buf[i] in ",;:" && After(buf, i) == " " && i + 1 >= min
  }

  /** The scan of `_boundary` from position `i`. */
  function Scan(buf: string, i: nat, min: nat): (r: Option<nat>)
    requires i <= |buf|
    ensures r.Some? ==> i < r.value < |buf|
    decreases |buf| - i
  {
    if i == |buf| then None
    else if Terminal(buf, i) && !Excused(buf, i) then
      if After(buf, i) == "" then None else Some(i + 1)
    else if !Terminal(buf, i) && SoftBreak(buf, i, min) then Some(i + 1)
    else Scan(buf, i + 1, min)
  }

  function Boundary(buf: string, min: nat, max: nat): (r: Option<nat>)
    requires max >= 1
    ensures r.Some? ==> 1 <= r.value <= |buf| && r.value <= max
    ensures r.None? ==> |buf| < max
  {
    if |buf| >= max then Some(max) else Scan(buf, 0, min)
  }

  /** The chunker as an instance of `Chunking`. */
  function Finds(min: nat, max: nat): Finder
    requires max >= 1
  {
    (buf: string) => Boundary(buf, min, max)
  }

  lemma FindsGood(min: nat, max: nat)
    requires max >= 1
    ensures Good(Finds(min, max), max)
  {}

  // ---------------------------------------------------------------- the chunker

  class ClauseChunker {
    const min: nat
    const max: nat
    var buf: string

    ghost predicate Valid() { max >= 1 }

    constructor (min: nat := 40, max: nat := 240)
      requires max >= 1
      ensures Valid() && this.min == min && this.max == max && buf == ""
    {
      this.min, this.max, buf := min, max, "";
    }

    method FindBoundary() returns (cut: Option<nat>)
      requires Valid()
      ensures cut == Boundary(buf, min, max)
    {
      if |buf| >= max { return Some(max); }
      var i := 0;
      while i < |buf|
        invariant i <= |buf| && Scan(buf, i, min) == Scan(buf, 0, min)
      {
        if Terminal(buf, i) {
          if !Excused(buf, i) {
            return if After(buf, i) == "" then None else Some(i + 1);
          }
        } else if SoftBreak(buf, i, min) {
          return Some(i + 1);
        }
        i := i + 1;
      }
      cut := None;
    }

    method Feed(delta: string) returns (out: seq<string>)
      requires Valid()
      modifies this
      ensures Good(Finds(min, max), max)
      ensures (out, buf) == Cut(Finds(min, max), max, old(buf) + delta)
      ensures Join(out) + buf == old(buf) + delta
    {
      ghost var f := Finds(min, max);
      FindsGood(min, max);
      buf := buf + delta;
      out := [];
      ghost var all := buf;
      CutMeaning(f, max, all);
      assert [] + Cut(f, max, buf).0 == Cut(f, max, buf).0;
      while true
        invariant (out + Cut(f, max, buf).0, Cut(f, max, buf).1) == Cut(f, max, all)
        decreases |buf|
      {
        var cut := FindBoundary();
        if cut.None? { break; }
        CutStep(f, max, out, buf, cut.value);
        out := out + [buf[..cut.value]];
        buf := buf[cut.value..];
      }
      assert out + [] == out;
    }

    method Flush() returns (out: seq<string>)
      requires Valid()
      modifies this
      ensures buf == "" && out == Flushed(old(buf)) && Join(out) == old(buf)
    {
      out := if buf != "" then [buf] else [];
      buf := "";
    }
  }

  lemma CutStep(f: Finder, max: nat, out: seq<string>, buf: string, n: nat)
    requires Good(f, max) && f(buf) == Some(n)
    ensures out + Cut(f, max, buf).0 == (out + [buf[..n]]) + Cut(f, max, buf[n..]).0
    ensures Cut(f, max, buf).1 == Cut(f, max, buf[n..]).1
  {}

  // ---------------------------------------------------------------- whole streams

  lemma {:induction false} ScanStable(buf: string, more: string, i: nat, min: nat)
    requires i <= |buf| && Scan(buf, i, min).Some?
    ensures Scan(buf + more, i, min) == Scan(buf, i, min)
    decreases |buf| - i
  {
    var all := buf + more;
    if i + 1 < |buf| {
      assert all[i + 1..i + 2] == buf[i + 1..i + 2];
      assert i > 0 ==> all[i - 1..i] == buf[i - 1..i];
      var from := if i < 4 then 0 else i - 4;
      assert all[from..i + 1] == buf[from..i + 1];
      if Scan(buf, i + 1, min).Some? { ScanStable(buf, more, i + 1, min); }
    }
  }

  lemma FindsStable(min: nat, max: nat)
    requires max >= 1
    ensures Stable(Finds(min, max), max)
  {
    var f := Finds(min, max);
    forall s, more | f(s).Some? && |s| + |more| < max ensures f(s + more) == f(s) {
      ScanStable(s, more, 0, min);
    }
  }

  /** Any stream: the clauses join to exactly the input, none is empty, none is over `max`. */
  lemma StreamRefinesInput(min: nat, max: nat, deltas: seq<string>)
    requires max >= 1
    ensures Good(Finds(min, max), max)
    ensures var clauses := Clauses(Finds(min, max), max, "", deltas);
      Join(clauses) == Join(deltas) && forall c <- clauses :: 1 <= |c| <= max
  {
    FindsGood(min, max);
    ClausesRefineInput(Finds(min, max), max, "", deltas);
    assert "" + Join(deltas) == Join(deltas);
  }

  /** Inputs shorter than `max`: every way of cutting the input gives the same clauses. */
  lemma CutsDoNotMatterBelowMax(min: nat, max: nat, a: seq<string>, b: seq<string>)
    requires max >= 1 && Join(a) == Join(b) && |Join(a)| < max
    ensures Good(Finds(min, max), max)
    ensures Clauses(Finds(min, max), max, "", a) == Clauses(Finds(min, max), max, "", b)
  {
    FindsGood(min, max);
    FindsStable(min, max);
    assert Scan("", 0, min) == None;
    CutsDoNotMatter(Finds(min, max), max, "", a);
    CutsDoNotMatter(Finds(min, max), max, "", b);
  }

  /** For the real boundary rules and any bounds: the clauses of an input are the same for every
      way of cutting it into deltas if and only if it is shorter than `max`, or no boundary shows
      in its first `max - 1` characters and the same holds of what follows the first `max`. */
  lemma CutsDoNotMatterExactly(min: nat, max: nat, s: string)
    requires max >= 1
    ensures Good(Finds(min, max), max)
    ensures CutIndependent(Finds(min, max), max, s) <==> CutFree(Finds(min, max), max, s)
  {
    FindsGood(min, max);
    FindsStable(min, max);
    Chunking.CutsDoNotMatterExactly(Finds(min, max), max, s);
  }

  function Repeat(c: char, n: nat): (s: string)
    ensures |s| == n && forall x <- s :: x == c
  {
    if n == 0 then "" else [c] + Repeat(c, n - 1)
  }

  lemma {:induction false} NothingToCut(buf: string, i: nat, min: nat)
    requires i <= |buf| && forall j | i <= j < |buf| :: buf[j] == 'x' || buf[j] == ' '
    ensures Scan(buf, i, min) == None
    decreases |buf| - i
  {
    if i < |buf| { NothingToCut(buf, i + 1, min); }
  }

  /** The bound is sharp: for every `max` of at least 4 there is an input of exactly `max`
      characters whose clauses depend on how it is cut. */
  lemma CutsMatterAtMax(min: nat, max: nat, first: string, second: string)
    requires max >= 4 && first == "a. " && second == Repeat('x', max - 3)
    ensures Good(Finds(min, max), max) && |first + second| == max
    ensures Clauses(Finds(min, max), max, "", [first + second]) == [first + second]
    ensures Clauses(Finds(min, max), max, "", [first, second]) == [first[..2], " " + second]
  {
    BoundaryOfFirst(min, max);
    SplitAtMax(min, max, first, second);
  }

  lemma SplitAtMax(min: nat, max: nat, first: string, second: string)
    requires max >= 4 && |first| == 3 && first[2..] == " " && Boundary(first, min, max) == Some(2)
    requires Boundary(" ", min, max) == None
    requires |second| == max - 3 && forall c <- second :: c == 'x'
    ensures Good(Finds(min, max), max)
    ensures Clauses(Finds(min, max), max, "", [first + second]) == [first + second]
    ensures Clauses(Finds(min, max), max, "", [first, second]) == [first[..2], " " + second]
  {
    FindsGood(min, max);
    NoBoundaryAfter(second, min, max);
    CutAtMax(first + second, min, max);
    TwoWays(Finds(min, max), max, first, second);
  }

  lemma CutAtMax(buf: string, min: nat, max: nat)
    requires max >= 1 && |buf| == max
    ensures Boundary(buf, min, max) == Some(max)
  {}

  lemma NoBoundaryAfter(second: string, min: nat, max: nat)
    requires |second| + 1 < max && forall c <- second :: c == 'x'
    ensures Boundary(" " + second, min, max) == None
  {
    var rest := " " + second;
    forall j | 0 <= j < |rest| ensures rest[j] == 'x' || rest[j] == ' ' {
      if j > 0 { assert rest[j] == second[j - 1] && second[j - 1] in second; }
    }
    NothingToCut(rest, 0, min);
  }

  lemma TwoWays(f: Finder, max: nat, first: string, second: string)
    requires Good(f, max) && |first| >= 2 && first[2..] == " " && |first + second| == max
    requires f(first) == Some(2) && f(" ").None? && f(" " + second).None? && f(first + second) == Some(max)
    ensures Clauses(f, max, "", [first + second]) == [first + second]
    ensures Clauses(f, max, "", [first, second]) == [first[..2], " " + second]
  {
    CutWhole(f, first + second, max);
    AtOnce(f, max, first + second);
    CutOnce(f, max, first, 2);
    TwoFeeds(f, max, first, second, first[..2], " ");
  }

  lemma TwoFeeds(f: Finder, max: nat, first: string, second: string, clause: string, left: string)
    requires Good(f, max) && Cut(f, max, first) == ([clause], left) && left != "" && f(left + second).None?
    ensures Clauses(f, max, "", [first, second]) == [clause, left + second]
  {
    assert "" + first == first && [first, second][1..] == [second] && [second][1..] == [];
    assert Cut(f, max, left + second) == ([], left + second);
    assert Clauses(f, max, left, [second]) == [] + [left + second];
  }

  lemma CutWhole(f: Finder, whole: string, max: nat)
    requires Good(f, max) && f(whole) == Some(|whole|)
    ensures Cut(f, max, whole) == ([whole], "")
  {
    assert whole[..|whole|] == whole && whole[|whole|..] == "";
    assert f("").None?;
    assert Cut(f, max, "") == ([], "");
    assert [whole] + [] == [whole];
  }

  lemma CutOnce(f: Finder, max: nat, buf: string, n: nat)
    requires Good(f, max) && f(buf) == Some(n) && f(buf[n..]) == None
    ensures Cut(f, max, buf) == ([buf[..n]], buf[n..])
  {
    assert Cut(f, max, buf[n..]) == ([], buf[n..]);
    assert [buf[..n]] + [] == [buf[..n]];
  }

  lemma BoundaryOfFirst(min: nat, max: nat)
    requires max >= 4
    ensures Boundary("a. ", min, max) == Some(2)
    ensures "a. "[..2] == "a." && "a. "[2..] == " " && Boundary(" ", min, max) == None
  {
    var first := "a. ";
    assert After(first, 1) == " " && After(first, 0) == "." && Before(first, 1) == "a";
    assert first[0..2] == "a.";
    assert Lower("a.") == "a." by { assert Lower(".") == "."; assert "a."[1..] == "."; }
    assert !EndsAbbreviation(first, 1);
    assert !IsDigitText("a") by { assert "a"[0] in "a"; }
    assert Terminal(first, 1) && !Excused(first, 1);
    assert Scan(first, 1, min) == Some(2);
    assert Scan(first, 0, min) == Some(2);
    NothingToCut(" ", 0, min);
  }
}
