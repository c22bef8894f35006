/** Cutting a stream of deltas into clauses, for any way of finding the next boundary. The
    chunker of pod/vihs_pod/pipeline/clause.py is one instance (module Clause). */
module Chunking {
  import opened Seqs
  import opened Wrappers

  function Join(parts: seq<string>): string {
    if parts == [] then "" else parts[0] + Join(parts[1..])
  }

  lemma {:induction false} JoinConcat(a: seq<string>, b: seq<string>)
    ensures Join(a + b) == Join(a) + Join(b)
  {
    if a == [] {
      assert a + b == b;
    } else {
      assert (a + b)[1..] == a[1..] + b;
      JoinConcat(a[1..], b);
    }
  }

  lemma JoinCons(part: string, parts: seq<string>)
    ensures Join([part] + parts) == part + Join(parts)
  {
    assert ([part] + parts)[1..] == parts;
  }

  /** Where to cut a buffer; None waits for more text. */
  type Finder = string -> Option<nat>

  /** A cut is inside the buffer and at most `max`; a buffer of `max` characters is cut. */
  ghost predicate Good(f: Finder, max: nat) {
    && max >= 1
    && (forall s :: f(s).Some? ==> 1 <= f(s).value <= |s| && f(s).value <= max)
    && (forall s :: f(s).None? ==> |s| < max)
  }

  /** A cut once found does not move when more text arrives, short of `max`. */
  ghost predicate Stable(f: Finder, max: nat) {
    forall s, more :: f(s).Some? && |s| + |more| < max ==> f(s + more) == f(s)
  }

  /** What the loop of `feed` emits from a buffer, and what it leaves in it. */
  function Cut(f: Finder, max: nat, buf: string): (seq<string>, string)
    requires Good(f, max)
    decreases |buf|
  {
    match f(buf)
    case None => ([], buf)
    case Some(n) =>
      var (clauses, rest) := Cut(f, max, buf[n..]);
      ([buf[..n]] + clauses, rest)
  }

  function Flushed(buf: string): seq<string> { if buf == "" then [] else [buf] }

  /** All clauses of a stream of deltas, the flush included. */
  function Clauses(f: Finder, max: nat, buf: string, deltas: seq<string>): seq<string>
    requires Good(f, max)
    decreases |deltas|
  {
    if deltas == [] then Flushed(buf)
    else
      var (out, rest) := Cut(f, max, buf + deltas[0]);
      out + Clauses(f, max, rest, deltas[1..])
  }

  /** Nothing is lost, no clause is empty or over `max`, and nothing is left to emit. */
  lemma {:induction false} CutMeaning(f: Finder, max: nat, buf: string)
    requires Good(f, max)
    ensures var (clauses, rest) := Cut(f, max, buf);
      && Join(clauses) + rest == buf
      && (forall c <- clauses :: 1 <= |c| <= max)
      && f(rest).None?
    decreases |buf|
  {
    match f(buf)
    case None =>
    case Some(n) =>
      CutMeaning(f, max, buf[n..]);
      var (clauses, rest) := Cut(f, max, buf[n..]);
      JoinCons(buf[..n], clauses);
      Resplit(buf, n, Join(clauses), rest);
  }

  lemma Resplit(buf: string, n: nat, a: string, b: string)
    requires n <= |buf| && a + b == buf[n..]
    ensures (buf[..n] + a) + b == buf
  {
    assert (buf[..n] + a) + b == buf[..n] + (a + b);
  }

  /** The clauses join to exactly the input; none is empty and none is over `max`. */
  lemma {:induction false} ClausesRefineInput(f: Finder, max: nat, buf: string, deltas: seq<string>)
    requires Good(f, max) && |buf| < max
    ensures Join(Clauses(f, max, buf, deltas)) == buf + Join(deltas)
    ensures forall c <- Clauses(f, max, buf, deltas) :: 1 <= |c| <= max
    decreases |deltas|
  {
    if deltas == [] {
      if buf != "" { JoinCons(buf, []); }
    } else {
      var (out, rest) := Cut(f, max, buf + deltas[0]);
      CutMeaning(f, max, buf + deltas[0]);
      ClausesRefineInput(f, max, rest, deltas[1..]);
      JoinConcat(out, Clauses(f, max, rest, deltas[1..]));
      Reassociate(Join(out), rest, Join(deltas[1..]), buf, deltas[0]);
    }
  }

  lemma Reassociate(a: string, b: string, c: string, x: string, y: string)
    requires a + b == x + y
    ensures a + (b + c) == x + (y + c)
  {
    assert a + (b + c) == (a + b) + c && x + (y + c) == (x + y) + c;
  }

  lemma CutHere(f: Finder, max: nat, buf: string, n: nat)
    requires Good(f, max) && f(buf) == Some(n)
    ensures Cut(f, max, buf) == ([buf[..n]] + Cut(f, max, buf[n..]).0, Cut(f, max, buf[n..]).1)
  {}

  lemma SplitBefore(a: string, b: string, n: nat)
    requires n <= |a|
    ensures (a + b)[..n] == a[..n] && (a + b)[n..] == a[n..] + b
  {}

  lemma AddFirst(x: string, a: seq<string>, b: seq<string>)
    ensures [x] + (a + b) == ([x] + a) + b
  {}

  lemma {:induction false} CutIncremental(f: Finder, max: nat, buf: string, more: string)
    requires Good(f, max) && Stable(f, max) && |buf| + |more| < max
    ensures Cut(f, max, buf + more) ==
      (Cut(f, max, buf).0 + Cut(f, max, Cut(f, max, buf).1 + more).0, Cut(f, max, Cut(f, max, buf).1 + more).1)
    decreases |buf|
  {
    match f(buf)
    case None =>
      assert [] + Cut(f, max, buf + more).0 == Cut(f, max, buf + more).0;
    case Some(n) =>
      SplitBefore(buf, more, n);
      CutHere(f, max, buf, n);
      CutHere(f, max, buf + more, n);
      CutIncremental(f, max, buf[n..], more);
      AddFirst(buf[..n], Cut(f, max, buf[n..]).0, Cut(f, max, Cut(f, max, buf[n..]).1 + more).0);
  }

  lemma AtOnce(f: Finder, max: nat, whole: string)
    requires Good(f, max)
    ensures Clauses(f, max, "", [whole]) == Cut(f, max, whole).0 + Flushed(Cut(f, max, whole).1)
  {
    assert "" + whole == whole && [whole][1..] == [];
  }

  /** Below `max` characters the clauses are those of the whole input fed at once, however it
      is cut into deltas. */
  lemma {:induction false} CutsDoNotMatter(f: Finder, max: nat, buf: string, deltas: seq<string>)
    requires Good(f, max) && Stable(f, max) && |buf| + |Join(deltas)| < max && f(buf).None?
    ensures Clauses(f, max, buf, deltas) == Clauses(f, max, "", [buf + Join(deltas)])
    decreases |deltas|
  {
    var whole := buf + Join(deltas);
    AtOnce(f, max, whole);
    if deltas == [] {
      assert whole == buf;
    } else {
      var fed, tail := buf + deltas[0], Join(deltas[1..]);
      assert whole == fed + tail;
      CutMeaning(f, max, fed);
      FirstDelta(f, max, fed, tail);
      var rest := Cut(f, max, fed).1;
      assert |rest + tail| <= |whole| by { assert |fed| == |Join(Cut(f, max, fed).0)| + |rest|; }
      CutsDoNotMatter(f, max, rest, deltas[1..]);
    }
  }

  /** Feeding `fed` and then `tail` at once emits what feeding both at once does. */
  lemma FirstDelta(f: Finder, max: nat, fed: string, tail: string)
    requires Good(f, max) && Stable(f, max) && |fed| + |tail| < max
    ensures Clauses(f, max, "", [fed + tail]) ==
      Cut(f, max, fed).0 + Clauses(f, max, "", [Cut(f, max, fed).1 + tail])
  {
    var out, rest := Cut(f, max, fed).0, Cut(f, max, fed).1;
    CutIncremental(f, max, fed, tail);
    AtOnce(f, max, fed + tail);
    AtOnce(f, max, rest + tail);
    Assoc(out, Cut(f, max, rest + tail).0, Flushed(Cut(f, max, rest + tail).1));
  }

  // ---------------------------------------------------------------- exactly which inputs

  /** A buffer of `max` characters or more is cut at `max`, whatever is in it. */
  ghost predicate CutsAtMax(f: Finder, max: nat) {
    forall s :: |s| >= max ==> f(s) == Some(max)
  }

  /** No boundary shows before `max` characters, and none again after each cut at `max`: what is
      left when nothing is cut by content any more is shorter than `max`. */
  predicate CutFree(f: Finder, max: nat, s: string)
    requires max >= 1
    decreases |s|
  {
    |s| < max || (f(s[..max - 1]).None? && CutFree(f, max, s[max..]))
  }

  /** Every two ways of cutting the input into deltas give the same clauses. */
  ghost predicate CutIndependent(f: Finder, max: nat, s: string)
    requires Good(f, max)
  {
    forall a, b | Join(a) == s && Join(b) == s :: Clauses(f, max, "", a) == Clauses(f, max, "", b)
  }

  /** Short of `max` a prefix of a text without boundary has none. */
  lemma NoneInPrefix(f: Finder, max: nat, s: string, n: nat, m: nat)
    requires Stable(f, max) && n <= m <= |s| && m < max && f(s[..m]).None?
    ensures f(s[..n]).None?
  {
    assert s[..m] == s[..n] + s[n..m];
  }

  lemma {:induction false} CutFreeStep(f: Finder, max: nat, fed: string, tail: string)
    requires Good(f, max) && Stable(f, max) && CutsAtMax(f, max) && CutFree(f, max, fed + tail)
    ensures CutFree(f, max, Cut(f, max, fed).1 + tail)
    ensures Cut(f, max, fed + tail) ==
      (Cut(f, max, fed).0 + Cut(f, max, Cut(f, max, fed).1 + tail).0, Cut(f, max, Cut(f, max, fed).1 + tail).1)
    decreases |fed|
  {
    var whole := fed + tail;
    if |whole| < max {
      CutIncremental(f, max, fed, tail);
      CutMeaning(f, max, fed);
      RestIsShorter(f, max, fed);
    } else if |fed| < max {
      assert fed == whole[..|fed|];
      NoneInPrefix(f, max, whole, |fed|, max - 1);
      assert [] + Cut(f, max, whole).0 == Cut(f, max, whole).0;
    } else {
      SplitBefore(fed, tail, max);
      CutHere(f, max, fed, max);
      CutHere(f, max, whole, max);
      CutFreeStep(f, max, fed[max..], tail);
      AddFirst(fed[..max], Cut(f, max, fed[max..]).0, Cut(f, max, Cut(f, max, fed[max..]).1 + tail).0);
    }
  }

  lemma RestIsShorter(f: Finder, max: nat, buf: string)
    requires Good(f, max)
    ensures |Cut(f, max, buf).1| <= |buf|
  {
    CutMeaning(f, max, buf);
    var (clauses, rest) := Cut(f, max, buf);
    assert |buf| == |Join(clauses)| + |rest|;
  }

  lemma ClausesFirst(f: Finder, max: nat, buf: string, deltas: seq<string>)
    requires Good(f, max) && deltas != []
    ensures Clauses(f, max, buf, deltas)
      == Cut(f, max, buf + deltas[0]).0 + Clauses(f, max, Cut(f, max, buf + deltas[0]).1, deltas[1..])
  {}

  /** However a cut-free input arrives, the clauses are those of the whole fed at once. */
  lemma {:induction false} CutFreeAtOnce(f: Finder, max: nat, buf: string, deltas: seq<string>, whole: string)
    requires Good(f, max) && Stable(f, max) && CutsAtMax(f, max)
    requires whole == buf + Join(deltas) && CutFree(f, max, whole) && f(buf).None?
    ensures Clauses(f, max, buf, deltas) == Cut(f, max, whole).0 + Flushed(Cut(f, max, whole).1)
    decreases |deltas|
  {
    if deltas == [] {
      NothingFed(f, max, buf, whole);
    } else {
      var fed, tail := buf + deltas[0], Join(deltas[1..]);
      var rest := Cut(f, max, fed).1;
      Assoc(buf, deltas[0], tail);
      CutFreeStep(f, max, fed, tail);
      NothingToCutLeft(f, max, fed);
      CutFreeAtOnce(f, max, rest, deltas[1..], rest + tail);
      CutFreeNext(f, max, buf, deltas, Cut(f, max, fed).0, rest, Cut(f, max, rest + tail));
    }
  }

  lemma NothingFed(f: Finder, max: nat, buf: string, whole: string)
    requires Good(f, max) && f(buf).None? && whole == buf + ""
    ensures Clauses(f, max, buf, []) == Cut(f, max, whole).0 + Flushed(Cut(f, max, whole).1)
  {
    assert whole == buf && Cut(f, max, buf) == ([], buf);
    assert [] + Flushed(buf) == Flushed(buf);
  }

  lemma NothingToCutLeft(f: Finder, max: nat, buf: string)
    requires Good(f, max)
    ensures f(Cut(f, max, buf).1).None?
  {
    CutMeaning(f, max, buf);
  }

  lemma CutFreeNext(f: Finder, max: nat, buf: string, deltas: seq<string>, first: seq<string>, rest: string,
      later: (seq<string>, string))
    requires Good(f, max) && deltas != [] && (first, rest) == Cut(f, max, buf + deltas[0])
    requires Clauses(f, max, rest, deltas[1..]) == later.0 + Flushed(later.1)
    ensures Clauses(f, max, buf, deltas) == (first + later.0) + Flushed(later.1)
  {
    ClausesFirst(f, max, buf, deltas);
    Assoc(first, later.0, Flushed(later.1));
  }

  /** Two ways of cutting an input that is not cut-free, with different clauses. */
  lemma {:induction false} TellApart(f: Finder, max: nat, s: string) returns (a: seq<string>, b: seq<string>)
    requires Good(f, max) && CutsAtMax(f, max) && !CutFree(f, max, s)
    ensures Join(a) == s && Join(b) == s
    ensures Clauses(f, max, "", a) != Clauses(f, max, "", b)
    decreases |s|
  {
    var head, tail := s[..max], s[max..];
    assert head + tail == s;
    if f(s[..max - 1]).Some? {
      a, b := [s], [s[..max - 1], s[max - 1..]];
      EarlyBoundary(f, max, s, s[..max - 1], s[max - 1..]);
    } else {
      var x, y := TellApart(f, max, tail);
      a, b := [head] + x, [head] + y;
      LaterBoundary(f, max, head, x, y);
      JoinCons(head, x);
      JoinCons(head, y);
    }
  }

  lemma EarlyBoundary(f: Finder, max: nat, s: string, early: string, late: string)
    requires Good(f, max) && CutsAtMax(f, max) && |s| >= max && s == early + late
    requires |early| < max && f(early).Some?
    ensures Join([s]) == s && Join([early, late]) == s
    ensures Clauses(f, max, "", [s]) != Clauses(f, max, "", [early, late])
  {
    OnePart(s);
    TwoParts(early, late);
    FirstClause(f, max, s, []);
    FirstClause(f, max, early, [late]);
    assert [s] + [] == [s] && [early] + [late] == [early, late];
  }

  lemma LaterBoundary(f: Finder, max: nat, head: string, x: seq<string>, y: seq<string>)
    requires Good(f, max) && CutsAtMax(f, max) && |head| == max
    requires Clauses(f, max, "", x) != Clauses(f, max, "", y)
    ensures Clauses(f, max, "", [head] + x) != Clauses(f, max, "", [head] + y)
  {
    FirstAtMax(f, max, head, x);
    FirstAtMax(f, max, head, y);
    SameFirst(head, Clauses(f, max, "", x), Clauses(f, max, "", y));
  }

  lemma OnePart(s: string)
    ensures Join([s]) == s
  {
    JoinCons(s, []);
    assert [s] + [] == [s] && s + "" == s;
  }

  lemma TwoParts(a: string, b: string)
    ensures Join([a, b]) == a + b
  {
    assert [a, b] == [a] + [b];
    JoinCons(a, [b]);
    OnePart(b);
  }

  /** The first clause is what the first delta's buffer is first cut at. */
  lemma FirstClause(f: Finder, max: nat, delta: string, later: seq<string>)
    requires Good(f, max) && f(delta).Some?
    ensures var clauses := Clauses(f, max, "", [delta] + later);
      clauses != [] && |clauses[0]| == f(delta).value
  {
    assert "" + delta == delta && ([delta] + later)[1..] == later;
    CutHere(f, max, delta, f(delta).value);
  }

  /** A delta of exactly `max` characters is one clause. */
  lemma FirstAtMax(f: Finder, max: nat, delta: string, later: seq<string>)
    requires Good(f, max) && CutsAtMax(f, max) && |delta| == max
    ensures Clauses(f, max, "", [delta] + later) == [delta] + Clauses(f, max, "", later)
  {
    assert "" + delta == delta && ([delta] + later)[1..] == later;
    CutHere(f, max, delta, max);
    assert delta[..max] == delta && delta[max..] == "";
    assert Cut(f, max, "") == ([], "");
    assert [delta] + [] == [delta];
  }

  lemma SameFirst(x: string, a: seq<string>, b: seq<string>)
    requires a != b
    ensures [x] + a != [x] + b
  {
    assert ([x] + a)[1..] == a && ([x] + b)[1..] == b;
  }

  /** The clauses of an input do not depend on how it is cut into deltas if and only if the input
      is cut-free. */
  lemma CutsDoNotMatterExactly(f: Finder, max: nat, s: string)
    requires Good(f, max) && Stable(f, max) && CutsAtMax(f, max)
    ensures CutIndependent(f, max, s) <==> CutFree(f, max, s)
  {
    if CutFree(f, max, s) {
      forall a, b | Join(a) == s && Join(b) == s ensures Clauses(f, max, "", a) == Clauses(f, max, "", b) {
        assert "" + s == s;
        CutFreeAtOnce(f, max, "", a, s);
        CutFreeAtOnce(f, max, "", b, s);
      }
    } else {
      var a, b := TellApart(f, max, s);
    }
  }
}
