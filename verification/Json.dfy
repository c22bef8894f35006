/** JSON values, the compact printer of serde_json, and the canonical printer of
    crates/vihs-core/src/chain.rs, together with a decoder that inverts both. */
module Json {
  /** The text serde_json prints for a finite f64: digits, sign, point, exponent,
      and always a point or an exponent, so it never reads as an integer. */
  type FloatText = s: string | IsFloatText(s) witness (var t := "0.5"; assert t[1] in t; t)

  predicate IsFloatText(s: string) {
    && s != ""
    && (IsDigit(s[0]) || s[0] == '-')
    && (forall c <- s :: IsNumberChar(c))
    && exists c <- s :: IsFloatMark(c)
  }

  /** `serde_json::Value`. A `Map` is an ordered map keyed by string, so its
      insertion order is not part of the value. */
  datatype Value =
    | Null
    | Bool(b: bool)
    | Num(n: int)
    | Float(text: FloatText)
    | Str(s: string)
    | Arr(items: seq<Value>)
    | Obj(fields: map<string, Value>)

  // ---------------------------------------------------------------- key order

  /** Lexicographic order, the `Ord` of Rust strings. */
  predicate Leq(a: string, b: string) {
    if a == "" then true
    else if b == "" then false
    else if a[0] == b[0] then Leq(a[1..], b[1..])
    else a[0] < b[0]
  }

  lemma LeqTotal(a: string, b: string)
    ensures Leq(a, b) || Leq(b, a)
  {}

  lemma LeqAntisymmetric(a: string, b: string)
    requires Leq(a, b) && Leq(b, a)
    ensures a == b
  {
    if a != "" {
      LeqAntisymmetric(a[1..], b[1..]);
      assert a == [a[0]] + a[1..] && b == [b[0]] + b[1..];
    }
  }

  lemma LeqTransitive(a: string, b: string, c: string)
    requires Leq(a, b) && Leq(b, c)
    ensures Leq(a, c)
  {}

  predicate Sorted(ks: seq<string>) {
    forall i, j :: 0 <= i < j < |ks| ==> Leq(ks[i], ks[j]) && ks[i] != ks[j]
  }

  predicate IsLeast(ks: set<string>, k: string) { k in ks && forall x <- ks :: Leq(k, x) }

  lemma LeastExists(ks: set<string>)
    requires ks != {}
    ensures exists k :: IsLeast(ks, k)
  {
    var k :| k in ks;
    LeqTotal(k, k);
    var rest := ks - {k};
    if rest != {} {
      LeastExists(rest);
      var m :| IsLeast(rest, m);
      LeqTotal(k, m);
      var least := if Leq(k, m) then k else m;
      forall x | x in ks ensures Leq(least, x) {
        if x in rest && Leq(k, m) { LeqTransitive(k, m, x); }
      }
      assert IsLeast(ks, least);
    } else {
      assert forall x <- ks :: x == k || x in rest;
      assert IsLeast(ks, k);
    }
  }

  lemma LeastUnique(ks: set<string>, a: string, b: string)
    requires IsLeast(ks, a) && IsLeast(ks, b)
    ensures a == b
  {
    LeqAntisymmetric(a, b);
  }

  lemma OnlyOneLeast(ks: set<string>)
    ensures forall a, b | IsLeast(ks, a) && IsLeast(ks, b) :: a == b
  {
    forall a, b | IsLeast(ks, a) && IsLeast(ks, b) ensures a == b { LeastUnique(ks, a, b); }
  }

  function Least(ks: set<string>): (k: string)
    requires ks != {}
    ensures IsLeast(ks, k)
  {
    LeastExists(ks);
    OnlyOneLeast(ks);
    var k :| IsLeast(ks, k);
    k
  }

  /** The keys in the order `keys.sort_unstable()` leaves them. */
  function SortedKeys(ks: set<string>): (r: seq<string>)
    ensures Sorted(r) && (forall k :: k in r <==> k in ks) && |r| == |ks|
  {
    if ks == {} then [] else
      var k := Least(ks);
      var rest := SortedKeys(ks - {k});
      [k] + rest
  }

  lemma SortedUnique(a: seq<string>, b: seq<string>)
    requires Sorted(a) && Sorted(b)
    requires forall k :: k in a <==> k in b
    ensures a == b
  {
    assert a != [] ==> a[0] in b;
    assert b != [] ==> b[0] in a;
    if a != [] {
      if a[0] != b[0] {
        LeqAntisymmetric(a[0], b[0]);
      }
      assert forall k :: k in a[1..] <==> k in a && k != a[0];
      assert forall k :: k in b[1..] <==> k in b && k != b[0];
      SortedUnique(a[1..], b[1..]);
      assert a == [a[0]] + a[1..] && b == [b[0]] + b[1..];
    }
  }

  // ---------------------------------------------------------------- encoding

  predicate IsDigit(c: char) { '0' <= c <= '9' }
  predicate IsFloatMark(c: char) { c == '.' || c == 'e' || c == 'E' }
  predicate IsNumberChar(c: char) { IsDigit(c) || IsFloatMark(c) || c == '-' || c == '+' }

  function DigitChar(d: nat): (c: char)
    requires d < 10
    ensures IsDigit(c)
  {
    ('0' as int + d) as char
  }

  function Digits(n: nat): (s: string)
    ensures s != "" && (forall c <- s :: IsDigit(c))
  {
    if n < 10 then [DigitChar(n)] else Digits(n / 10) + [DigitChar(n % 10)]
  }

  function IntText(n: int): (s: string)
    ensures s != "" && (IsDigit(s[0]) || s[0] == '-')
    ensures forall c <- s :: IsNumberChar(c) && !IsFloatMark(c)
  {
    if n < 0 then "-" + Digits(-n) else Digits(n)
  }

  function HexChar(d: nat): char
    requires d < 16
  {
    if d < 10 then ('0' as int + d) as char else ('a' as int + d - 10) as char
  }

  /** String escapes of section 7 of RFC 8259, as serde_json chooses them. */
  function Escape(c: char): (s: string)
    ensures s != "" && s[0] != '"'
  {
    if c == '"' then "\\\""
    else if c == '\\' then "\\\\"
    else if c == '\U{08}' then "\\b"
    else if c == '\U{0C}' then "\\f"
    else if c == '\n' then "\\n"
    else if c == '\r' then "\\r"
    else if c == '\t' then "\\t"
    else if c < ' ' then "\\u00" + [HexChar(c as int / 16), HexChar(c as int % 16)]
    else [c]
  }

  function EscapeAll(s: string): string {
    if s == "" then "" else Escape(s[0]) + EscapeAll(s[1..])
  }

  function Quote(s: string): string { "\"" + EscapeAll(s) + "\"" }

  /** `serde_json::to_string`: no whitespace, object keys in map order. */
  function Encode(v: Value): string
    decreases v, 0
  {
    match v
    case Null => "null"
    case Bool(b) => if b then "true" else "false"
    case Num(n) => IntText(n)
    case Float(t) => t
    case Str(s) => Quote(s)
    case Arr(items) => "[" + EncodeItems(items) + "]"
    case Obj(fields) => "{" + EncodeMembers(v, SortedKeys(fields.Keys)) + "}"
  }

  function EncodeItems(items: seq<Value>): string
    decreases items, 0
  {
    if items == [] then ""
    else if |items| == 1 then Encode(items[0])
    else Encode(items[0]) + "," + EncodeItems(items[1..])
  }

  function EncodeMembers(v: Value, ks: seq<string>): string
    requires v.Obj? && forall k <- ks :: k in v.fields
    decreases v, 0, |ks|
  {
    if ks == [] then ""
    else
      var first := Quote(ks[0]) + ":" + Encode(v.fields[ks[0]]);
      if |ks| == 1 then first else first + "," + EncodeMembers(v, ks[1..])
  }
}
