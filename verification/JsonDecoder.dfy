/** A decoder for the text `Json.Encode` prints. It is the independent partner of the
    encoder: decoding an encoding, whatever follows it, gives back exactly the value,
    so no two values share an encoding. */
module JsonDecoder {
  import opened Seqs
  import opened Wrappers
  import opened Json

  type Decoded<+T> = Option<(T, string)>

  // ---------------------------------------------------------------- numbers

  function NumberRun(s: string): (n: nat)
    ensures n <= |s| && (forall i | 0 <= i < n :: IsNumberChar(s[i])) && (n < |s| ==> !IsNumberChar(s[n]))
  {
    if s == "" || !IsNumberChar(s[0]) then 0 else 1 + NumberRun(s[1..])
  }

  function NatValue(s: string): nat
    requires forall c <- s :: IsDigit(c)
  {
    if s == "" then 0 else
      assert IsDigit(s[|s| - 1]);
      10 * NatValue(s[..|s| - 1]) + (s[|s| - 1] as int - '0' as int)
  }

  function DecodeNumber(token: string): Option<Value>
    requires token != "" && forall c <- token :: IsNumberChar(c)
  {
    if exists c <- token :: IsFloatMark(c) then
      if IsFloatText(token) then Some(Float(token)) else None
    else if token[0] == '-' && |token| > 1 && (forall c <- token[1..] :: IsDigit(c)) then
      Some(Num(0 - NatValue(token[1..])))
    else if forall c <- token :: IsDigit(c) then Some(Num(NatValue(token)))
    else None
  }

  // ---------------------------------------------------------------- strings

  function HexValue(c: char): Option<nat> {
    if '0' <= c <= '9' then Some(c as int - '0' as int)
    else if 'a' <= c <= 'f' then Some(c as int - 'a' as int + 10)
    else None
  }

  /** One character of a string body, with the number of characters it took. */
  function DecodeChar(s: string): (r: Option<(char, nat)>)
    requires s != ""
    ensures r.Some? ==> 1 <= r.value.1 <= |s|
  {
    if s[0] != '\\' then Some((s[0], 1))
    else if |s| < 2 then None
    else if s[1] == '"' || s[1] == '\\' then Some((s[1], 2))
    else if s[1] == 'b' then Some(('\U{08}', 2))
    else if s[1] == 'f' then Some(('\U{0C}', 2))
    else if s[1] == 'n' then Some(('\n', 2))
    else if s[1] == 'r' then Some(('\r', 2))
    else if s[1] == 't' then Some(('\t', 2))
    else if |s| >= 6 && s[1..4] == "u00" && HexValue(s[4]).Some? && HexValue(s[5]).Some? then
      Some(((16 * HexValue(s[4]).value + HexValue(s[5]).value) as char, 6))
    else None
  }

  /** The body of a string literal up to and including its closing quote. */
  function DecodeString(s: string): (r: Decoded<string>)
    ensures r.Some? ==> |r.value.1| < |s|
    decreases |s|
  {
    if s == "" then None
    else if s[0] == '"' then Some(("", s[1..]))
    else
      match DecodeChar(s)
      case None => None
      case Some((c, n)) =>
        match DecodeString(s[n..])
        case None => None
        case Some((body, rest)) => Some(([c] + body, rest))
  }

  // ---------------------------------------------------------------- values

  function Literal(s: string, word: string, v: Value): (r: Decoded<Value>)
    requires word != ""
    ensures r.Some? ==> |r.value.1| < |s|
  {
    if StartsWith(s, word) then Some((v, s[|word|..])) else None
  }

  function Decode(s: string): (r: Decoded<Value>)
    ensures r.Some? ==> |r.value.1| < |s|
    decreases |s|, 1
  {
    if s == "" then None
    else if s[0] == 'n' then Literal(s, "null", Null)
    else if s[0] == 't' then Literal(s, "true", Bool(true))
    else if s[0] == 'f' then Literal(s, "false", Bool(false))
    else if s[0] == '"' then
      match DecodeString(s[1..])
      case None => None
      case Some((body, rest)) => Some((Str(body), rest))
    else if s[0] == '[' then
      if StartsWith(s, "[]") then Some((Arr([]), s[2..]))
      else
        match DecodeItems(s[1..])
        case None => None
        case Some((items, rest)) => Some((Arr(items), rest))
    else if s[0] == '{' then
      if StartsWith(s, "{}") then Some((Obj(map[]), s[2..]))
      else
        match DecodeMembers(s[1..])
        case None => None
        case Some((fields, rest)) => Some((Obj(fields), rest))
    else
      var n := NumberRun(s);
      if n == 0 then None
      else
        match DecodeNumber(s[..n])
        case None => None
        case Some(v) => Some((v, s[n..]))
  }

  function DecodeItems(s: string): (r: Decoded<seq<Value>>)
    ensures r.Some? ==> |r.value.1| < |s|
    decreases |s|, 2
  {
    match Decode(s)
    case None => None
    case Some((v, rest)) =>
      if rest == "" then None
      else if rest[0] == ']' then Some(([v], rest[1..]))
      else if rest[0] != ',' then None
      else
        match DecodeItems(rest[1..])
        case None => None
        case Some((items, tail)) => Some(([v] + items, tail))
  }

  function DecodeMember(s: string): (r: Decoded<(string, Value)>)
    ensures r.Some? ==> |r.value.1| < |s|
    decreases |s|, 2
  {
    if s == "" || s[0] != '"' then None
    else
      match DecodeString(s[1..])
      case None => None
      case Some((key, afterKey)) =>
        if afterKey == "" || afterKey[0] != ':' then None
        else
          match Decode(afterKey[1..])
          case None => None
          case Some((v, rest)) => Some(((key, v), rest))
  }

  function DecodeMembers(s: string): (r: Decoded<map<string, Value>>)
    ensures r.Some? ==> |r.value.1| < |s|
    decreases |s|, 3
  {
    match DecodeMember(s)
    case None => None
    case Some(((key, v), rest)) =>
      if rest == "" then None
      else if rest[0] == '}' then Some((map[key := v], rest[1..]))
      else if rest[0] != ',' then None
      else
        match DecodeMembers(rest[1..])
        case None => None
        case Some((fields, tail)) => Some((fields[key := v], tail))
  }

  // ---------------------------------------------------------------- round trips

  lemma {:induction false} DigitsRoundTrip(n: nat)
    ensures NatValue(Digits(n)) == n
  {
    if n >= 10 {
      DigitsRoundTrip(n / 10);
      var s := Digits(n);
      assert s[..|s| - 1] == Digits(n / 10);
    } else {
      assert Digits(n)[..0] == "";
    }
  }

  lemma IntRoundTrip(n: int)
    ensures DecodeNumber(IntText(n)) == Some(Num(n))
  {
    var t := IntText(n);
    if n < 0 {
      DigitsRoundTrip(-n);
      assert t[1..] == Digits(-n);
    } else {
      DigitsRoundTrip(n);
      assert t[0] in t;
    }
  }

  lemma {:induction false} NumberRunOf(token: string, rest: string)
    requires forall c <- token :: IsNumberChar(c)
    requires rest == "" || !IsNumberChar(rest[0])
    ensures NumberRun(token + rest) == |token|
  {
    if token == "" {
      assert token + rest == rest;
    } else {
      assert (token + rest)[1..] == token[1..] + rest;
      NumberRunOf(token[1..], rest);
    }
  }

  lemma CharRoundTrip(c: char, rest: string)
    ensures DecodeChar(Escape(c) + rest) == Some((c, |Escape(c)|))
  {
    var s := Escape(c) + rest;
    if c < ' ' && |Escape(c)| == 6 {
      assert s[1..4] == "u00";
      assert s[4] == HexChar(c as int / 16) && s[5] == HexChar(c as int % 16);
    }
  }

  lemma {:induction false} StringRoundTrip(body: string, rest: string)
    ensures DecodeString(EscapeAll(body) + "\"" + rest) == Some((body, rest))
  {
    var s := EscapeAll(body) + "\"" + rest;
    if body == "" {
      assert s == "\"" + rest;
      assert s[1..] == rest;
    } else {
      var tail := EscapeAll(body[1..]) + "\"" + rest;
      assert s == Escape(body[0]) + tail;
      CharRoundTrip(body[0], tail);
      assert s[|Escape(body[0])|..] == tail;
      StringRoundTrip(body[1..], rest);
      assert body == [body[0]] + body[1..];
    }
  }

  /** What may follow a value inside a larger text. */
  predicate Delimited(rest: string) { rest == "" || rest[0] == ',' || rest[0] == ']' || rest[0] == '}' }

  /** Decoding the encoding of a value gives the value back and stops exactly at its end. */
  lemma {:induction false} RoundTrip(v: Value, rest: string)
    requires Delimited(rest)
    ensures Decode(Encode(v) + rest) == Some((v, rest))
    decreases v, 1
  {
    match v
    case Null => LiteralRoundTrip("null", v, rest);
    case Bool(b) => LiteralRoundTrip(if b then "true" else "false", v, rest);
    case Num(n) => NumberRoundTrip(v, IntText(n), rest);
    case Float(t) => NumberRoundTrip(v, t, rest);
    case Str(body) => QuoteRoundTrip(body, rest);
    case Arr(items) => ArrRoundTrip(items, rest);
    case Obj(fields) => ObjRoundTrip(v, rest);
  }

  lemma LiteralRoundTrip(word: string, v: Value, rest: string)
    requires (v.Null? && word == "null") || (v.Bool? && word == if v.b then "true" else "false")
    ensures Decode(word + rest) == Some((v, rest))
  {
    var s := word + rest;
    assert s[0] == word[0] && s[..|word|] == word && s[|word|..] == rest;
  }

  lemma {:induction false} ArrRoundTrip(items: seq<Value>, rest: string)
    requires Delimited(rest)
    ensures Decode(Encode(Arr(items)) + rest) == Some((Arr(items), rest))
    decreases items, 1
  {
    var body := EncodeItems(items);
    var s := "[" + body + "]" + rest;
    if items == [] {
      assert s == "[]" + rest;
      assert s[..2] == "[]" && s[2..] == rest;
    } else {
      ItemsRoundTrip(items, rest);
      EncodeStart(items[0]);
      assert body[0] == Encode(items[0])[0];
      OpenBracket('[', ']', body, rest);
    }
  }

  lemma {:induction false} ObjRoundTrip(v: Value, rest: string)
    requires v.Obj? && Delimited(rest)
    ensures Decode(Encode(v) + rest) == Some((v, rest))
    decreases v, 0
  {
    var ks := SortedKeys(v.fields.Keys);
    if ks == [] {
      assert v == Obj(map[]) by { assert v.fields.Keys == {}; }
      EmptyObjRoundTrip(rest);
    } else {
      MembersRoundTrip(v, ks, rest);
      MembersStart(v, ks);
      var body := EncodeMembers(v, ks);
      DecodeObj(body, rest);
      AllFields(v.fields, ks);
      assert Encode(v) == "{" + body + "}";
    }
  }

  lemma AllFields(fields: map<string, Value>, ks: seq<string>)
    requires forall k :: k in ks <==> k in fields
    ensures (map k | k in ks :: fields[k]) == fields
  {}

  lemma EmptyObjRoundTrip(rest: string)
    ensures Decode(Encode(Obj(map[])) + rest) == Some((Obj(map[]), rest))
  {
    assert SortedKeys({}) == [];
    var s := "{}" + rest;
    assert s[..2] == "{}" && s[2..] == rest;
  }

  lemma MembersStart(v: Value, ks: seq<string>)
    requires v.Obj? && ks != [] && forall k <- ks :: k in v.fields
    ensures EncodeMembers(v, ks) != "" && EncodeMembers(v, ks)[0] == '"'
  {}

  lemma DecodeObj(body: string, rest: string)
    requires body != "" && body[0] == '"'
    ensures Decode("{" + body + "}" + rest) ==
      match DecodeMembers(body + "}" + rest)
      case None => None
      case Some((fields, tail)) => Some((Obj(fields), tail))
  {
    OpenBracket('{', '}', body, rest);
  }

  lemma OpenBracket(open: char, close: char, body: string, rest: string)
    requires body != "" && body[0] != close
    ensures var s := [open] + body + [close] + rest;
      s[0] == open && s[1..] == body + [close] + rest && !StartsWith(s, [open, close])
  {
    var s := [open] + body + [close] + rest;
    assert s[1] == body[0];
    assert s[1..] == body + [close] + rest;
  }

  lemma EncodeStart(v: Value)
    ensures Encode(v) != "" && Encode(v)[0] !in "]},"
  {}

  lemma NumberRoundTrip(v: Value, token: string, rest: string)
    requires Delimited(rest)
    requires v.Num? || v.Float?
    requires token == Encode(v)
    ensures Decode(token + rest) == Some((v, rest))
  {
    if v.Num? { IntRoundTrip(v.n); }
    NumberDecodes(v, token, rest);
  }

  lemma NumberDecodes(v: Value, token: string, rest: string)
    requires Delimited(rest) && token != "" && forall c <- token :: IsNumberChar(c)
    requires DecodeNumber(token) == Some(v)
    ensures Decode(token + rest) == Some((v, rest))
  {
    var s := token + rest;
    NumberRunOf(token, rest);
    assert s[0] == token[0] && token[0] in token;
    assert s[..|token|] == token && s[|token|..] == rest;
  }

  lemma {:induction false} ItemsRoundTrip(items: seq<Value>, rest: string)
    requires items != []
    ensures DecodeItems(EncodeItems(items) + "]" + rest) == Some((items, rest))
    decreases items, 0
  {
    if |items| == 1 {
      RoundTrip(items[0], "]" + rest);
      LastItem(items[0], Encode(items[0]), "]", rest);
      assert items == [items[0]];
    } else {
      RoundTrip(items[0], "," + (EncodeItems(items[1..]) + "]" + rest));
      ItemsRoundTrip(items[1..], rest);
      FirstOfItems(items, items[1..], EncodeItems(items[1..]), rest);
    }
  }

  lemma FirstOfItems(items: seq<Value>, later: seq<Value>, others: string, rest: string)
    requires |items| > 1 && later == items[1..] && others == EncodeItems(later)
    requires var follow := "," + (others + "]" + rest);
      Decode(Encode(items[0]) + follow) == Some((items[0], follow))
    requires DecodeItems(others + "]" + rest) == Some((later, rest))
    ensures DecodeItems(EncodeItems(items) + "]" + rest) == Some((items, rest))
  {
    MoreItems(items[0], later, Encode(items[0]), others, ",", "]", rest);
    assert items == [items[0]] + later;
  }

  lemma LastItem(v: Value, text: string, close: string, rest: string)
    requires close == "]" && Decode(text + (close + rest)) == Some((v, close + rest))
    ensures DecodeItems(text + close + rest) == Some(([v], rest))
  {
    assert text + close + rest == text + (close + rest);
    assert (close + rest)[1..] == rest;
  }

  lemma MoreItems(v: Value, items: seq<Value>, text: string, others: string, comma: string, close: string, rest: string)
    requires comma == ","
    requires Decode(text + (comma + (others + close + rest))) == Some((v, comma + (others + close + rest)))
    requires DecodeItems(others + close + rest) == Some((items, rest))
    ensures DecodeItems((text + comma + others) + close + rest) == Some(([v] + items, rest))
  {
    RegroupItems(text, comma, others, close, rest);
    assert (comma + (others + close + rest))[1..] == others + close + rest;
  }

  lemma RegroupItems(a: string, b: string, c: string, d: string, e: string)
    ensures (a + b + c) + d + e == a + (b + (c + d + e))
  {}

  lemma QuoteRoundTrip(key: string, rest: string)
    ensures var s := Quote(key) + rest; s[0] == '"' && DecodeString(s[1..]) == Some((key, rest))
  {
    var s := Quote(key) + rest;
    assert s[1..] == EscapeAll(key) + "\"" + rest;
    StringRoundTrip(key, rest);
  }

  lemma MemberRoundTrip(key: string, value: Value, text: string, follow: string)
    requires Decode(text + follow) == Some((value, follow))
    ensures DecodeMember(Quote(key) + (":" + text + follow)) == Some(((key, value), follow))
  {
    var afterKey := ":" + text + follow;
    QuoteRoundTrip(key, afterKey);
    AfterColon(":", text, follow);
    MemberDecodes(Quote(key) + afterKey, key, afterKey, value, follow);
  }

  lemma AfterColon(colon: string, text: string, follow: string)
    requires colon == ":"
    ensures var s := colon + text + follow; s != "" && s[0] == ':' && s[1..] == text + follow
  {}

  lemma MemberDecodes(s: string, key: string, afterKey: string, value: Value, follow: string)
    requires s != "" && s[0] == '"' && DecodeString(s[1..]) == Some((key, afterKey))
    requires afterKey != "" && afterKey[0] == ':' && Decode(afterKey[1..]) == Some((value, follow))
    ensures DecodeMember(s) == Some(((key, value), follow))
  {}

  lemma {:induction false} MembersRoundTrip(v: Value, ks: seq<string>, rest: string)
    requires v.Obj? && ks != [] && Sorted(ks) && forall k <- ks :: k in v.fields
    ensures DecodeMembers(EncodeMembers(v, ks) + "}" + rest) == Some((map k | k in ks :: v.fields[k], rest))
    decreases v, 0, |ks|
  {
    var value := v.fields[ks[0]];
    var text := Encode(value);
    if |ks| == 1 {
      var follow := "}" + rest;
      RoundTrip(value, follow);
      MemberRoundTrip(ks[0], value, text, follow);
      RegroupLast(Quote(ks[0]), text, rest);
      assert (map k | k in ks :: v.fields[k]) == map[ks[0] := value];
    } else {
      var members := EncodeMembers(v, ks[1..]);
      var follow := "," + (members + "}" + rest);
      RoundTrip(value, follow);
      MemberRoundTrip(ks[0], value, text, follow);
      Regroup(Quote(ks[0]), text, members, rest);
      MembersRoundTrip(v, ks[1..], rest);
      AddMember(v.fields, ks);
    }
  }

  lemma RegroupLast(key: string, text: string, rest: string)
    ensures (key + ":" + text) + "}" + rest == key + (":" + text + ("}" + rest))
    ensures ("}" + rest)[1..] == rest
  {}

  lemma Regroup(key: string, text: string, members: string, rest: string)
    ensures (key + ":" + text + "," + members) + "}" + rest == key + (":" + text + ("," + (members + "}" + rest)))
    ensures ("," + (members + "}" + rest))[1..] == members + "}" + rest
  {}

  lemma AddMember(fields: map<string, Value>, ks: seq<string>)
    requires ks != [] && forall k <- ks :: k in fields
    ensures (map k | k in ks[1..] :: fields[k])[ks[0] := fields[ks[0]]] == map k | k in ks :: fields[k]
  {
    assert ks == [ks[0]] + ks[1..];
  }

  /** No two values share an encoding. */
  lemma EncodeInjective(v: Value, w: Value)
    requires Encode(v) == Encode(w)
    ensures v == w
  {
    RoundTrip(v, "");
    RoundTrip(w, "");
    assert Encode(v) + "" == Encode(v);
    assert Encode(w) + "" == Encode(w);
  }
}
