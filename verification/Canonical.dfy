/** Canonical bytes (crates/vihs-core/src/chain.rs:34-61): keys sorted at every depth, no
    whitespace, the top-level `hash` removed, floats refused where object nesting alone
    reaches them. */
module Canonical {
  import opened Wrappers
  import opened Json
  import opened JsonDecoder

  datatype ChainError =
    | NotObject
    | FloatInHashedField
    | MissingField(name: string)
    | Torn(at: nat)
    | BadHash(at: nat)
    | TurnRegression(at: nat)

  /** The inner `canon`: objects are walked by hand, everything else goes to serde_json. */
  function Canon(v: Value): Option<string>
    decreases v, 1
  {
    match v
    case Float(_) => None
    case Obj(fields) => Braced(CanonMembers(v, SortedKeys(fields.Keys)))
    case _ => Some(Encode(v))
  }

  function Braced(members: Option<string>): Option<string> {
    match members case None => None case Some(t) => Some("{" + t + "}")
  }

  function CanonMembers(v: Value, ks: seq<string>): Option<string>
    requires v.Obj? && forall k <- ks :: k in v.fields
    decreases v, 0, |ks|
  {
    if ks == [] then Some("") else
      match Canon(v.fields[ks[0]])
      case None => None
      case Some(t) =>
        var first := Quote(ks[0]) + ":" + t;
        if |ks| == 1 then Some(first) else
          match CanonMembers(v, ks[1..])
          case None => None
          case Some(others) => Some(first + "," + others)
  }

  function Strip(event: Value): Value
    requires event.Obj?
  {
    Obj(event.fields - {"hash"})
  }

  function CanonicalBytes(event: Value): Result<string, ChainError> {
    if !event.Obj? then Err(NotObject)
    else
      match Canon(Strip(event))
      case None => Err(FloatInHashedField)
      case Some(t) => Ok(t)
  }

  // ------------------------------------------------ what the bytes mean

  /** A float that only object members lead to; a float inside an array is not reached. */
  predicate FloatReached(v: Value) {
    v.Float? || (v.Obj? && exists k <- v.fields :: FloatReached(v.fields[k]))
  }

  predicate MemberReached(v: Value, ks: seq<string>)
    requires v.Obj? && forall k <- ks :: k in v.fields
  {
    exists k <- ks :: FloatReached(v.fields[k])
  }

  /** Floats are refused exactly where object nesting reaches them; otherwise the canonical
      text is the plain serde_json text. */
  lemma {:induction false} CanonMeaning(v: Value)
    ensures Canon(v) == if FloatReached(v) then None else Some(Encode(v))
    decreases v, 1
  {
    if v.Obj? {
      ObjectMeaning(v, SortedKeys(v.fields.Keys));
    } else {
      ScalarMeaning(v);
    }
  }

  lemma ScalarMeaning(v: Value)
    requires !v.Obj?
    ensures Canon(v) == if FloatReached(v) then None else Some(Encode(v))
  {}

  lemma {:induction false} ObjectMeaning(v: Value, ks: seq<string>)
    requires v.Obj? && ks == SortedKeys(v.fields.Keys)
    ensures Canon(v) == if FloatReached(v) then None else Some(Encode(v))
    decreases v, 0, |ks| + 1
  {
    CanonMembersMeaning(v, ks);
    MembersReachedAll(v, ks);
    CanonOfObject(v, ks);
    EncodeOfObject(v, ks);
    BracedMembers(Canon(v), CanonMembers(v, ks), MemberReached(v, ks), EncodeMembers(v, ks), Encode(v));
  }

  lemma CanonOfObject(v: Value, ks: seq<string>)
    requires v.Obj? && ks == SortedKeys(v.fields.Keys)
    ensures Canon(v) == Braced(CanonMembers(v, ks))
  {}

  lemma EncodeOfObject(v: Value, ks: seq<string>)
    requires v.Obj? && ks == SortedKeys(v.fields.Keys)
    ensures Encode(v) == "{" + EncodeMembers(v, ks) + "}"
  {}

  lemma BracedMembers(canon: Option<string>, members: Option<string>, reached: bool, text: string, whole: string)
    requires canon == Braced(members) && members == (if reached then None else Some(text))
    requires whole == "{" + text + "}"
    ensures canon == if reached then None else Some(whole)
  {}

  lemma MembersReachedAll(v: Value, ks: seq<string>)
    requires v.Obj? && forall k :: k in ks <==> k in v.fields
    ensures MemberReached(v, ks) == FloatReached(v)
  {
    if MemberReached(v, ks) {
      var k :| k in ks && FloatReached(v.fields[k]);
      assert k in v.fields;
    }
  }

  lemma MemberReachedStep(v: Value, ks: seq<string>)
    requires v.Obj? && ks != [] && forall k <- ks :: k in v.fields
    ensures MemberReached(v, ks) == (FloatReached(v.fields[ks[0]]) || MemberReached(v, ks[1..]))
  {
    assert ks == [ks[0]] + ks[1..];
  }

  lemma {:induction false} CanonMembersMeaning(v: Value, ks: seq<string>)
    requires v.Obj? && forall k <- ks :: k in v.fields
    ensures CanonMembers(v, ks) == if MemberReached(v, ks) then None else Some(EncodeMembers(v, ks))
    decreases v, 0, |ks|
  {
    if ks != [] {
      CanonMeaning(v.fields[ks[0]]);
      CanonMembersMeaning(v, ks[1..]);
      MemberReachedStep(v, ks);
    }
  }

  /** The bytes decode to the event without its top-level `hash`. */
  lemma CanonicalDecodes(event: Value)
    requires CanonicalBytes(event).Ok?
    ensures Decode(CanonicalBytes(event).value) == Some((Strip(event), ""))
  {
    CanonMeaning(Strip(event));
    RoundTrip(Strip(event), "");
    assert Encode(Strip(event)) + "" == Encode(Strip(event));
  }

  /** When the bytes exist, and that equal bytes mean equal events and conversely. */
  lemma CanonicalUnambiguous(e: Value, f: Value)
    ensures CanonicalBytes(e).Ok? <==> e.Obj? && !FloatReached(Strip(e))
    ensures CanonicalBytes(e).Ok? && CanonicalBytes(f).Ok? ==>
      (CanonicalBytes(e) == CanonicalBytes(f) <==> Strip(e) == Strip(f))
  {
    if e.Obj? { CanonMeaning(Strip(e)); }
    if CanonicalBytes(e).Ok? && CanonicalBytes(f).Ok? {
      CanonicalDecodes(e);
      CanonicalDecodes(f);
    }
  }

  // ------------------------------------------------ the writer into a byte buffer

  method SortKeys(ks: set<string>) returns (sorted: seq<string>)
    ensures sorted == SortedKeys(ks)
  {
    sorted := [];
    var left := ks;
    while left != {}
      invariant left <= ks && Sorted(sorted)
      invariant forall k :: k in sorted <==> k in ks && k !in left
      decreases |left|
    {
      var k :| k in left;
      sorted := InsertKey(sorted, k);
      left := left - {k};
    }
    SortedUnique(sorted, SortedKeys(ks));
  }

  method InsertKey(sorted: seq<string>, k: string) returns (r: seq<string>)
    requires Sorted(sorted) && k !in sorted
    ensures Sorted(r) && forall x :: x in r <==> x in sorted || x == k
  {
    var i := 0;
    while i < |sorted| && Leq(sorted[i], k)
      invariant 0 <= i <= |sorted|
      invariant forall j :: 0 <= j < i ==> Leq(sorted[j], k)
    {
      i := i + 1;
    }
    if i < |sorted| {
      LeqTotal(sorted[i], k);
      forall j | i <= j < |sorted| ensures Leq(k, sorted[j]) {
        if j > i { LeqTransitive(k, sorted[i], sorted[j]); }
      }
    }
    r := sorted[..i] + [k] + sorted[i..];
  }

  /** What writing the members `ks` onto `buf` leaves. */
  function Written(buf: string, v: Value, ks: seq<string>, first: bool): Option<string>
    requires v.Obj? && forall k <- ks :: k in v.fields
  {
    if ks == [] then Some(buf)
    else match CanonMembers(v, ks) case None => None case Some(t) => Some(buf + (if first then "" else ",") + t)
  }

  lemma WrittenStep(buf: string, v: Value, ks: seq<string>, first: bool)
    requires v.Obj? && ks != [] && forall k <- ks :: k in v.fields
    ensures Written(buf, v, ks, first) ==
      match Canon(v.fields[ks[0]])
      case None => None
      case Some(t) => Written(buf + (if first then "" else ",") + Quote(ks[0]) + ":" + t, v, ks[1..], false)
  {
    match Canon(v.fields[ks[0]])
    case None =>
    case Some(t) =>
      Glue(buf, if first then "" else ",", Quote(ks[0]), ":", t);
      if |ks| > 1 && CanonMembers(v, ks[1..]).Some? {
        GlueMore(buf, if first then "" else ",", Quote(ks[0]), ":", t, ",", CanonMembers(v, ks[1..]).value);
      }
  }

  lemma Glue(buf: string, sep: string, key: string, colon: string, t: string)
    ensures buf + sep + key + colon + t == (buf + sep) + (key + colon + t)
  {}

  lemma GlueMore(buf: string, sep: string, key: string, colon: string, t: string, comma: string, others: string)
    ensures (buf + sep + key + colon + t) + comma + others == (buf + sep) + ((key + colon + t) + comma + others)
  {}

  function Appended(out: string, text: Option<string>): Option<string> {
    match text case None => None case Some(t) => Some(out + t)
  }

  /** `canon` as the source runs it: text pushed onto `out`, stopping at the first float. */
  method WriteCanon(v: Value, out: string) returns (r: Option<string>)
    ensures r == Appended(out, Canon(v))
    decreases v, 1
  {
    match v
    case Float(_) => r := None;
    case Obj(_) => r := WriteObject(v, out);
    case _ => r := Some(out + Encode(v));
  }

  method WriteObject(v: Value, out: string) returns (r: Option<string>)
    requires v.Obj?
    ensures r == Appended(out, Braced(CanonMembers(v, SortedKeys(v.fields.Keys))))
    decreases v, 0, 1
  {
    var ks := SortKeys(v.fields.Keys);
    r := WriteMembers(v, ks, out + "{");
    CloseObject(CanonMembers(v, ks), out);
    if r.Some? { r := Some(r.value + "}"); }
  }

  lemma CloseObject(members: Option<string>, out: string)
    ensures members.Some? ==> out + "{" + members.value + "}" == out + Braced(members).value
  {}

  method WriteMembers(v: Value, ks: seq<string>, out: string) returns (r: Option<string>)
    requires v.Obj? && forall k <- ks :: k in v.fields
    ensures r == Appended(out, CanonMembers(v, ks))
    decreases v, 0, 0
  {
    var buf := out;
    assert ks[0..] == ks && out + "" == out;
    for i := 0 to |ks|
      invariant Written(buf, v, ks[i..], i == 0) == Written(out, v, ks, true)
    {
      WrittenStep(buf, v, ks[i..], i == 0);
      assert ks[i..][1..] == ks[i + 1..] && buf + "" == buf;
      if i > 0 { buf := buf + ","; }
      buf := buf + Quote(ks[i]) + ":";
      var next := WriteCanon(v.fields[ks[i]], buf);
      match next {
        case None => return None;
        case Some(b) => buf := b;
      }
    }
    assert ks[|ks|..] == [];
    r := Some(buf);
  }

  method ComputeCanonicalBytes(event: Value) returns (r: Result<string, ChainError>)
    ensures r == CanonicalBytes(event)
  {
    if !event.Obj? { return Err(NotObject); }
    var text := WriteCanon(Strip(event), "");
    if text.None? { return Err(FloatInHashedField); }
    assert "" + Canon(Strip(event)).value == Canon(Strip(event)).value;
    r := Ok(text.value);
  }
}
