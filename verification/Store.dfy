/** The event objects of one session (crates/memoryd/src/store.rs): one object per appended
    event, numbered from 1, read back in order as lines of JSON. */
module Store {
  import opened Wrappers
  import opened Json
  import opened JsonDecoder

  datatype StoreError = Io | NotFound(seqNo: nat)

  class ObjectStore {
    var objects: map<nat, Value>

    /** No gap: the objects are numbered 1 to n. */
    ghost predicate Valid()
      reads this
    {
      forall k :: k in objects <==> 1 <= k <= |objects|
    }

    /** The logical log, in sequence order. */
    ghost function Log(): seq<Value>
      requires Valid()
      reads this
    {
      var os := objects;
      seq(|os|, i requires 0 <= i < |os| && i + 1 in os => os[i + 1])
    }

    constructor ()
      ensures Valid() && Log() == []
    {
      objects := map[];
    }

    /** The highest number present, by scanning the listing. */
    method MaxSeq() returns (max: Option<nat>)
      ensures max.None? <==> objects == map[]
      ensures max.Some? ==> max.value in objects && forall k <- objects :: k <= max.value
    {
      max := None;
      var left := objects.Keys;
      while left != {}
        invariant left <= objects.Keys
        invariant max.None? <==> left == objects.Keys
        invariant max.Some? ==> max.value in objects && forall k | k in objects && k !in left :: k <= max.value
        decreases |left|
      {
        var k :| k in left;
        left := left - {k};
        max := Some(match max case None => k case Some(m) => if m < k then k else m);
      }
    }

    lemma KeysOf()
      requires Valid()
      ensures |objects| > 0 ==> |objects| in objects
    {}

    /** Append one sealed event as the next object. A failed write leaves nothing behind. */
    method AppendLine(sealed: Value, writeFails: bool) returns (r: Result<nat, StoreError>)
      requires Valid()
      modifies this
      ensures Valid()
      ensures writeFails ==> r == Err(Io) && Log() == old(Log())
      ensures !writeFails ==> r == Ok(|old(Log())| + 1) && Log() == old(Log()) + [sealed]
    {
      var max := MaxSeq();
      KeysOf();
      var seqNo := match max case None => 1 case Some(m) => m + 1;
      if writeFails { return Err(Io); }
      ghost var before := objects;
      assert seqNo !in before;
      objects := objects[seqNo := sealed];
      assert objects.Keys == before.Keys + {seqNo};
      assert |objects.Keys| == |before.Keys| + 1;
      r := Ok(seqNo);
    }

    /** Everything numbered above `after`, in order; the first gap is an error. */
    method ReadLogAfter(after: nat) returns (r: Result<seq<Value>, StoreError>)
      ensures r.Ok? ==>
                forall i | 0 <= i < |r.value| :: after + 1 + i in objects && r.value[i] == objects[after + 1 + i]
      ensures r.Ok? ==> forall k <- objects :: k <= after + |r.value|
      ensures r.Err? ==> r.error.NotFound? && r.error.seqNo !in objects
      ensures r.Err? ==> forall k | after < k < r.error.seqNo :: k in objects
      ensures r.Err? ==> after < r.error.seqNo && exists k <- objects :: r.error.seqNo < k
    {
      var max := MaxSeq();
      var out := [];
      if max.None? || max.value <= after { return Ok(out); }
      for n := after + 1 to max.value + 1
        invariant |out| == n - 1 - after
        invariant forall i | 0 <= i < |out| :: after + 1 + i in objects && out[i] == objects[after + 1 + i]
        invariant forall k | after < k < n :: k in objects
      {
        if n !in objects { return Err(NotFound(n)); }
        out := out + [objects[n]];
      }
      r := Ok(out);
    }

    method ReadLog() returns (r: Result<seq<Value>, StoreError>)
      ensures Valid() ==> r == Ok(Log())
    {
      r := ReadLogAfter(0);
      if Valid() {
        KeysOf();
        if r.Ok? {
          assert |objects| > 0 ==> |objects| <= |r.value|;
          if r.value != [] {
            var last := r.value[|r.value| - 1];
            assert 0 + 1 + (|r.value| - 1) in objects;
          }
          assert r.value == Log();
        }
      }
    }
  }

  // ------------------------------------------------ the log as bytes

  /** The concatenation `read_log` returns: one line of JSON per event. */
  function LogText(log: seq<Value>): string {
    if log == [] then "" else Encode(log[0]) + "\n" + LogText(log[1..])
  }

  function LineEnd(text: string): (n: nat)
    ensures n <= |text| && (forall i | 0 <= i < n :: text[i] != '\n') && (n < |text| ==> text[n] == '\n')
  {
    if text == "" || text[0] == '\n' then 0 else 1 + LineEnd(text[1..])
  }

  function ParseLine(line: string): Option<Value> {
    match Decode(line)
    case None => None
    case Some((v, rest)) => if rest == "" then Some(v) else None
  }

  /** Split on newlines, drop empty lines, keep the lines that parse. */
  function ParseLog(text: string): seq<Value>
    decreases |text|
  {
    if text == "" then []
    else
      var n := LineEnd(text);
      var tail := if n < |text| then ParseLog(text[n + 1..]) else [];
      if n == 0 then tail
      else match ParseLine(text[..n]) case None => tail case Some(v) => [v] + tail
  }

  predicate OneLine(s: string) { '\n' !in s }

  lemma {:induction false} EscapedIsOneLine(s: string)
    ensures OneLine(EscapeAll(s))
  {
    if s != "" { EscapedIsOneLine(s[1..]); }
  }

  lemma {:induction false} EncodedIsOneLine(v: Value)
    ensures OneLine(Encode(v))
    decreases v, 1
  {
    match v
    case Str(s) => EscapedIsOneLine(s);
    case Arr(items) => ItemsAreOneLine(items);
    case Obj(fields) => MembersAreOneLine(v, SortedKeys(fields.Keys));
    case _ =>
  }

  lemma {:induction false} ItemsAreOneLine(items: seq<Value>)
    ensures OneLine(EncodeItems(items))
    decreases items, 0
  {
    if items != [] {
      EncodedIsOneLine(items[0]);
      ItemsAreOneLine(items[1..]);
    }
  }

  lemma {:induction false} MembersAreOneLine(v: Value, ks: seq<string>)
    requires v.Obj? && forall k <- ks :: k in v.fields
    ensures OneLine(EncodeMembers(v, ks))
    decreases v, 0, |ks|
  {
    if ks != [] {
      EscapedIsOneLine(ks[0]);
      EncodedIsOneLine(v.fields[ks[0]]);
      MembersAreOneLine(v, ks[1..]);
    }
  }

  lemma {:induction false} LineEndOf(line: string, rest: string)
    requires OneLine(line)
    ensures LineEnd(line + "\n" + rest) == |line|
  {
    if line == "" {
      assert (line + "\n" + rest)[0] == '\n';
    } else {
      assert (line + "\n" + rest)[1..] == line[1..] + "\n" + rest;
      assert OneLine(line[1..]);
      LineEndOf(line[1..], rest);
    }
  }

  /** Reading the log back as bytes and parsing its lines gives exactly the events appended. */
  lemma {:induction false} LogTextRoundTrip(log: seq<Value>)
    ensures ParseLog(LogText(log)) == log
  {
    if log != [] {
      var line, rest := Encode(log[0]), LogText(log[1..]);
      var text := line + "\n" + rest;
      EncodedIsOneLine(log[0]);
      EncodeStart(log[0]);
      LineEndOf(line, rest);
      assert text[..|line|] == line && text[|line| + 1..] == rest;
      RoundTrip(log[0], "");
      assert line + "" == line;
      LogTextRoundTrip(log[1..]);
    }
  }
}
