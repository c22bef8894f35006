/** The envelope unwrapper (pod/vihs_pod/pipeline/llm.py): a reply streamed inside a JSON
    envelope loses the envelope, however the stream is cut. */
module Envelope {
  import opened Seqs
  import opened Wrappers
  import opened Chunking

  const HEAD: string := "{\"t\": \""
  const MIDDLE: string := "\", \"text\": \""

  function FirstQuote(s: string): (r: Option<nat>)
    ensures r.Some? ==> r.value < |s| && s[r.value] == '"'
  {
    if s == "" then None
    else if s[0] == '"' then Some(0)
    else match FirstQuote(s[1..]) case Some(i) => Some(i + 1) case None => None
  }

  /** Where the first close of an envelope starts. */
  function FirstClose(s: string): (r: Option<nat>)
    ensures r.Some? ==> r.value + 2 <= |s|
  {
    if |s| < 2 then None
    else if s[0] == '"' && s[1] == '}' then Some(0)
    else match FirstClose(s[1..]) case Some(i) => Some(i + 1) case None => None
  }

  // ---------------------------------------------------------------- the whole reply

  function HeadIn(s: string, head: string, middle: string): (r: Option<nat>)
    ensures r.Some? ==> r.value <= |s|
  {
    if !StartsWith(s, head) then None
    else
      match FirstQuote(s[|head|..])
      case None => None
      case Some(i) =>
        if StartsWith(s[|head| + i..], middle) then Some(|head| + i + |middle|) else None
  }

  /** The length of the envelope's head, if the reply starts with one. */
  function HeadLength(s: string): (r: Option<nat>)
    ensures r.Some? ==> r.value <= |s|
  {
    HeadIn(s, HEAD, MIDDLE)
  }

  function WithoutClose(body: string): string {
    match FirstClose(body) case Some(c) => body[..c] + body[c + 2..] case None => body
  }

  /** What is spoken of a reply. */
  function Unwrapped(s: string): string {
    match HeadLength(s) case Some(h) => WithoutClose(s[h..]) case None => s
  }

  // ---------------------------------------------------------------- the classifier

  datatype HeadState = Prefix | Match(end: nat) | No

  function StateIn(probe: string, head: string, middle: string): (r: HeadState)
    ensures r.Match? ==> r.end <= |probe|
  {
    if !StartsWith(probe, head) then
      if StartsWith(head, probe) then Prefix else No
    else
      match FirstQuote(probe[|head|..])
      case None => Prefix
      case Some(i) =>
        var rest := probe[|head| + i..];
        if StartsWith(rest, middle) then Match(|head| + i + |middle|)
        else if StartsWith(middle, rest) then Prefix
        else No
  }

  function StateOf(probe: string): (r: HeadState)
    ensures r.Match? ==> r.end <= |probe|
  {
    StateIn(probe, HEAD, MIDDLE)
  }

  lemma PrefixIn(probe: string, head: string, middle: string)
    requires StateIn(probe, head, middle).Prefix?
    ensures HeadIn(probe, head, middle) == None
  {}

  lemma MatchIn(probe: string, more: string, head: string, middle: string)
    requires StateIn(probe, head, middle).Match?
    ensures HeadIn(probe + more, head, middle) == Some(StateIn(probe, head, middle).end)
  {
    var i := FirstQuote(probe[|head|..]).value;
    StartStays(probe, more, head);
    SuffixOf(probe, more, |head|);
    QuoteStays(probe[|head|..], more);
    SuffixOf(probe, more, |head| + i);
    StartStays(probe[|head| + i..], more, middle);
  }

  lemma NoIn(probe: string, more: string, head: string, middle: string)
    requires StateIn(probe, head, middle).No?
    ensures HeadIn(probe + more, head, middle) == None
  {
    if !StartsWith(probe, head) {
      NotStartStays(probe, more, head);
    } else {
      var i := FirstQuote(probe[|head|..]).value;
      SuffixOf(probe, more, |head|);
      QuoteStays(probe[|head|..], more);
      SuffixOf(probe, more, |head| + i);
      NotStartStays(probe[|head| + i..], more, middle);
    }
  }

  lemma PrefixHasNoHead(probe: string)
    requires StateOf(probe).Prefix?
    ensures HeadLength(probe) == None
  {
    PrefixIn(probe, HEAD, MIDDLE);
  }

  lemma MatchStays(probe: string, more: string)
    requires StateOf(probe).Match?
    ensures HeadLength(probe + more) == Some(StateOf(probe).end)
  {
    MatchIn(probe, more, HEAD, MIDDLE);
  }

  lemma NoStays(probe: string, more: string)
    requires StateOf(probe).No?
    ensures HeadLength(probe + more) == None
  {
    NoIn(probe, more, HEAD, MIDDLE);
  }

  lemma SuffixOf(s: string, more: string, n: nat)
    requires n <= |s|
    ensures (s + more)[n..] == s[n..] + more
  {}

  lemma {:induction false} QuoteStays(s: string, more: string)
    requires FirstQuote(s).Some?
    ensures FirstQuote(s + more) == FirstQuote(s)
  {
    if s[0] != '"' {
      SuffixOf(s, more, 1);
      QuoteStays(s[1..], more);
    }
  }

  lemma StartStays(s: string, more: string, p: string)
    requires StartsWith(s, p)
    ensures StartsWith(s + more, p)
  {
    assert (s + more)[..|p|] == s[..|p|];
  }

  lemma NotStartStays(s: string, more: string, p: string)
    requires !StartsWith(s, p) && !StartsWith(p, s)
    ensures !StartsWith(s + more, p)
  {
    assert forall j | 0 <= j < |s| :: (s + more)[j] == s[j];
  }

  // ---------------------------------------------------------------- the stream

  function Shifted(r: Option<nat>, n: nat): Option<nat> {
    match r case Some(i) => Some(i + n) case None => None
  }

  /** The end of the body seen so far is held back, in case the close is cut in two. */
  lemma {:induction false} CloseAcrossCut(out: string, tail: string, rest: string)
    requires FirstClose(out + tail) == None && (out == "" || |tail| == 2)
    requires StartsWith(rest, tail)
    ensures FirstClose(out + rest) == Shifted(FirstClose(rest), |out|)
  {
    if out == "" {
      assert out + rest == rest;
    } else {
      SuffixOf(out, tail, 1);
      SuffixOf(out, rest, 1);
      SecondOf(out, tail, rest);
      CloseAcrossCut(out[1..], tail, rest);
    }
  }

  lemma SecondOf(out: string, tail: string, rest: string)
    requires out != "" && tail != "" && StartsWith(rest, tail)
    ensures (out + tail)[0] == (out + rest)[0] && (out + tail)[1] == (out + rest)[1]
  {
    assert rest[0] == tail[0];
  }

  lemma {:induction false} CloseStays(s: string, more: string)
    requires FirstClose(s).Some?
    ensures FirstClose(s + more) == FirstClose(s)
  {
    if !(s[0] == '"' && s[1] == '}') {
      SuffixOf(s, more, 1);
      CloseStays(s[1..], more);
    }
  }

  /** Once the close is found the rest of the reply passes through. */
  lemma Closed(out: string, rest: string, more: string)
    requires FirstClose(rest).Some? && FirstClose(out + rest) == Some(|out| + FirstClose(rest).value)
    ensures var c := FirstClose(rest).value;
      WithoutClose((out + rest) + more) == (out + rest[..c]) + (rest[c + 2..] + more)
  {
    CloseStays(out + rest, more);
    ClosedAt(out, rest, more, (out + rest) + more, FirstClose(rest).value);
  }

  lemma ClosedAt(out: string, rest: string, more: string, whole: string, c: nat)
    requires whole == (out + rest) + more && c + 2 <= |rest| && FirstClose(whole) == Some(|out| + c)
    ensures WithoutClose(whole) == (out + rest[..c]) + (rest[c + 2..] + more)
  {
    CutAround(out, rest, more, c);
  }

  lemma CutAround(out: string, rest: string, more: string, c: nat)
    requires c + 2 <= |rest|
    ensures ((out + rest) + more)[..|out| + c] == out + rest[..c]
    ensures ((out + rest) + more)[|out| + c + 2..] == rest[c + 2..] + more
  {}

  /** Inside the envelope: of the body so far, `out` is spoken and `tail` held back. */
  predicate Within(body: string, out: string, tail: string) {
    body == out + tail && FirstClose(body) == None && (out == "" || |tail| == 2)
  }

  lemma GoOn(body: string, out: string, tail: string, delta: string, rest: string, keep: nat)
    requires Within(body, out, tail) && rest == tail + delta && FirstClose(rest) == None
    requires keep == if |rest| >= 2 then |rest| - 2 else 0
    ensures Within(body + delta, out + rest[..keep], rest[keep..])
  {
    CloseAcrossCut(out, tail, rest);
    Rejoin(out, tail, delta, rest, keep);
  }

  lemma Rejoin(out: string, tail: string, delta: string, rest: string, keep: nat)
    requires rest == tail + delta && keep <= |rest|
    ensures (out + tail) + delta == (out + rest[..keep]) + rest[keep..] == out + rest
  {
    assert rest[..keep] + rest[keep..] == rest;
  }

  lemma Finish(body: string, out: string, tail: string, delta: string, more: string, rest: string)
    requires Within(body, out, tail) && rest == tail + delta && FirstClose(rest).Some?
    ensures var c := FirstClose(rest).value;
      WithoutClose((body + delta) + more) == (out + rest[..c]) + (rest[c + 2..] + more)
  {
    CloseAcrossCut(out, tail, rest);
    Closed(out, rest, more);
    Rejoin(out, tail, delta, rest, 0);
  }

  lemma HeadDropped(s: string, h: nat)
    requires HeadLength(s) == Some(h)
    ensures Unwrapped(s) == WithoutClose(s[h..])
  {}

  /** Once the head is matched the rest of the stream is body. */
  lemma BodyFollows(probe: string, end: nat, more: string)
    requires StateOf(probe) == Match(end)
    ensures Unwrapped(probe + more) == WithoutClose(probe[end..] + more)
  {
    MatchStays(probe, more);
    HeadDropped(probe + more, end);
    SuffixOf(probe, more, end);
  }

  /** What is yielded when the close is found: the text before it, after it, and the rest. */
  function Closing(out: seq<string>, text: string, after: string, later: seq<string>): seq<string> {
    (out + [text]) + if after != "" then [after] + later else later
  }

  lemma JoinClosing(out: seq<string>, text: string, after: string, later: seq<string>)
    ensures Join(Closing(out, text, after, later)) == (Join(out) + text) + (after + Join(later))
  {
    JoinSnoc(out, text);
    JoinPassing([after], later);
    JoinPassing(out + [text], if after != "" then [after] + later else later);
  }

  lemma JoinSplit(parts: seq<string>, i: nat)
    requires i <= |parts|
    ensures Join(parts) == Join(parts[..i]) + Join(parts[i..])
    ensures i < |parts| ==> Join(parts[..i + 1]) == Join(parts[..i]) + parts[i]
  {
    assert parts == parts[..i] + parts[i..];
    JoinConcat(parts[..i], parts[i..]);
    if i < |parts| {
      assert parts[..i + 1] == parts[..i] + [parts[i]];
      JoinSnoc(parts[..i], parts[i]);
    }
  }

  lemma JoinSnoc(parts: seq<string>, x: string)
    ensures Join(parts + [x]) == Join(parts) + x
  {
    JoinConcat(parts, [x]);
    assert x + "" == x;
  }

  lemma JoinPassing(out: seq<string>, rest: seq<string>)
    ensures Join(out + rest) == Join(out) + Join(rest)
  {
    JoinConcat(out, rest);
  }

  predicate Opens(s: string) { s != "" && s[0] == '{' }

  /** Streams that start with a brace: unless the first delta is empty, what is spoken is the
      reply without its envelope. */
  method Unwrap(deltas: seq<string>) returns (out: seq<string>)
    requires Opens(Join(deltas))
    ensures Join(out) == if deltas[0] == "" then Join(deltas) else Unwrapped(Join(deltas))
  {
    if deltas[0] == "" {
      // An empty probe is no envelope prefix: everything passes through.
      JoinSplit(deltas, 1);
      JoinSplit(deltas[..1], 0);
      return deltas[1..];
    }
    var pending := "";
    var i := 0;
    while i < |deltas|
      invariant 0 <= i <= |deltas|
      invariant pending == Join(deltas[..i]) && (i == 0 || StateOf(pending).Prefix?)
    {
      JoinSplit(deltas, i);
      JoinSplit(deltas, i + 1);
      pending := pending + deltas[i];
      i := i + 1;
      match StateOf(pending) {
        case No =>
          NoStays(pending, Join(deltas[i..]));
          JoinPassing([pending], deltas[i..]);
          return [pending] + deltas[i..];
        case Prefix =>
        case Match(end) =>
          BodyFollows(pending, end, Join(deltas[i..]));
          out := UnwrapBody(pending[end..], deltas[i..]);
          return;
      }
    }
    assert deltas[..i] == deltas;
    PrefixHasNoHead(pending);
    JoinSnoc([], pending);
    out := if pending != "" then [pending] else [];
  }

  /** From the rest of the delta that completes the head on. */
  method UnwrapBody(first: string, later: seq<string>) returns (out: seq<string>)
    ensures Join(out) == WithoutClose(first + Join(later))
  {
    out := [];
    var tail, delta, i := "", first, 0;
    ghost var body := "";
    assert later[0..] == later;
    while true
      invariant 0 <= i <= |later|
      invariant Within(body, Join(out), tail)
      invariant (body + delta) + Join(later[i..]) == first + Join(later)
      decreases |later| - i
    {
      var rest := tail + delta;
      match FirstClose(rest) {
        case Some(c) =>
          Finish(body, Join(out), tail, delta, Join(later[i..]), rest);
          JoinClosing(out, rest[..c], rest[c + 2..], later[i..]);
          return Closing(out, rest[..c], rest[c + 2..], later[i..]);
        case None =>
          var keep := if |rest| >= 2 then |rest| - 2 else 0;
          GoOn(body, Join(out), tail, delta, rest, keep);
          JoinSnoc(out, rest[..keep]);
          out := if |rest| >= 2 then out + [rest[..keep]] else out;
          tail := rest[keep..];
      }
      body := body + delta;
      if i == |later| { break; }
      NextDelta(body, later, i);
      delta := later[i];
      i := i + 1;
    }
    assert later[i..] == [] && body + "" == body;
    JoinSnoc(out, tail);
    // No close ends the tail: it would have been found.
    out := if tail != "" then out + [tail] else out;
  }

  lemma NextDelta(body: string, later: seq<string>, i: nat)
    requires i < |later|
    ensures body + Join(later[i..]) == (body + later[i]) + Join(later[i + 1..])
  {
    assert later[i..] == [later[i]] + later[i + 1..];
    JoinCons(later[i], later[i + 1..]);
  }

  // ---------------------------------------------------------------- what unwrapping means

  function Wrapped(kind: string, text: string): string { HEAD + (kind + (MIDDLE + (text + "\"}"))) }

  lemma {:induction false} QuoteAfter(kind: string, rest: string)
    requires FirstQuote(kind) == None && rest != "" && rest[0] == '"'
    ensures FirstQuote(kind + rest) == Some(|kind|)
  {
    if kind == "" {
      assert kind + rest == rest;
    } else {
      SuffixOf(kind, rest, 1);
      QuoteAfter(kind[1..], rest);
    }
  }

  lemma HeadOf(head: string, kind: string, middle: string, body: string)
    requires middle != "" && middle[0] == '"' && FirstQuote(kind) == None
    ensures HeadIn(head + (kind + (middle + body)), head, middle) == Some(|head| + |kind| + |middle|)
  {
    var rest := middle + body;
    QuoteAfter(kind, rest);
    Parts(head, kind, rest);
    StartStays(middle, body, middle);
    HeadIs(head + (kind + rest), head, kind, middle, rest);
  }

  lemma HeadIs(s: string, head: string, kind: string, middle: string, rest: string)
    requires StartsWith(s, head) && s[|head|..] == kind + rest
    requires |head| + |kind| <= |s| && s[|head| + |kind|..] == rest && StartsWith(rest, middle)
    requires FirstQuote(kind + rest) == Some(|kind|)
    ensures HeadIn(s, head, middle) == Some(|head| + |kind| + |middle|)
  {}

  lemma Parts(a: string, b: string, c: string)
    ensures (a + (b + c))[..|a|] == a && (a + (b + c))[|a|..] == b + c
    ensures (a + (b + c))[|a| + |b|..] == c
  {}

  lemma {:induction false} CloseOf(text: string, rest: string)
    requires |rest| >= 2 && rest[0] == '"' && rest[1] == '}' && FirstClose(text) == None
    ensures FirstClose(text + rest) == Some(|text|)
  {
    if text == "" {
      assert text + rest == rest;
    } else {
      SuffixOf(text, rest, 1);
      assert (text + rest)[1] == if |text| > 1 then text[1] else rest[0];
      CloseOf(text[1..], rest);
    }
  }

  /** Unwrapping undoes wrapping, and keeps what the model adds after the envelope. */
  lemma UnwrapUndoesWrap(kind: string, text: string, more: string)
    requires FirstQuote(kind) == None && FirstClose(text) == None
    ensures Unwrapped(Wrapped(kind, text) + more) == text + more
  {
    var body := text + ("\"}" + more);
    HeadOf(HEAD, kind, MIDDLE, body);
    Regroup(HEAD, kind, MIDDLE, text, "\"}", more);
    HeadDropped(HEAD + (kind + (MIDDLE + body)), |HEAD| + |kind| + |MIDDLE|);
    Skip(HEAD, kind, MIDDLE, body);
    CloseOf(text, "\"}" + more);
    AfterClose(text, "\"}", more);
  }

  lemma AfterClose(text: string, close: string, more: string)
    requires |close| == 2
    ensures (text + (close + more))[..|text|] == text && (text + (close + more))[|text| + 2..] == more
  {}

  lemma Regroup(a: string, b: string, c: string, d: string, e: string, f: string)
    ensures (a + (b + (c + (d + e)))) + f == a + (b + (c + (d + (e + f))))
  {}

  lemma Skip(a: string, b: string, c: string, d: string)
    ensures (a + (b + (c + d)))[|a| + |b| + |c|..] == d
  {}

  /** Passing a reply through raw is wrong exactly when it has an envelope: so an empty first
      delta does harm exactly then. */
  lemma RawIsRightExactly(s: string)
    ensures Unwrapped(s) == s <==> HeadLength(s) == None
  {
    if HeadLength(s).Some? {
      HeadDropped(s, HeadLength(s).value);
      assert |Unwrapped(s)| < |s|;
    }
  }
}
