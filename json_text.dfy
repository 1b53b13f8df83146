/** JSON text as JSON.stringify writes it (no indentation) and a parser for
    that text, with the round trip the session store relies on:
    parsing what JSON.stringify wrote gives back JSON.parse(JSON.stringify(v)). */
module JsonText {
  import opened JsValues

  // ---------------------------------------------------------------- writing

  predicate IsDigit(c: char) { '0' <= c <= '9' }

  function DigitChar(d: int): char
    requires 0 <= d < 10
  {
    ('0' as int + d) as char
  }

  function HexDigit(d: int): char
    requires 0 <= d < 16
  {
    if d < 10 then ('0' as int + d) as char else ('a' as int + (d - 10)) as char
  }

  /** Decimal digits of a natural number, most significant first. */
  function Digits(n: nat): string
    decreases n
  {
    if n < 10 then [DigitChar(n)] else Digits(n / 10) + [DigitChar(n % 10)]
  }

  function NumberText(n: int): string {
    if n < 0 then "-" + Digits(-n) else Digits(n)
  }

  /** How JSON.stringify writes one character inside a string literal. */
  function EscapeChar(c: char): string {
    if c == '"' then "\\\""
    else if c == '\\' then "\\\\"
    else if c as int == 8 then "\\b"
    else if c as int == 9 then "\\t"
    else if c as int == 10 then "\\n"
    else if c as int == 12 then "\\f"
    else if c as int == 13 then "\\r"
    else if c as int < 0x20 then "\\u00" + [HexDigit(c as int / 16), HexDigit(c as int % 16)]
    else [c]
  }

  function Escape(s: string): string {
    if |s| == 0 then "" else EscapeChar(s[0]) + Escape(s[1..])
  }

  function Quote(s: string): string {
    "\"" + Escape(s) + "\""
  }

  /** The text of a value nested in an array or object (an undefined array
      element is written as null). */
  function Ser(v: Json): string
    decreases v, 1
  {
    match v
    case Undefined => "null"
    case Null => "null"
    case Bool(b) => if b then "true" else "false"
    case Num(n) => NumberText(n)
    case Str(s) => Quote(s)
    case Arr(items) => "[" + SerItems(items) + "]"
    case Obj(ms) => "{" + SerMembers(DefinedMembers(ms), v) + "}"
  }

  function SerItems(items: seq<Json>): string
    decreases items, 0
  {
    if |items| == 0 then ""
    else if |items| == 1 then Ser(items[0])
    else Ser(items[0]) + "," + SerItems(items[1..])
  }

  function SerMembers(ms: seq<Member>, ghost parent: Json): string
    requires forall i :: 0 <= i < |ms| ==> ms[i].value < parent
    decreases parent, 0, |ms|
  {
    if |ms| == 0 then ""
    else if |ms| == 1 then Quote(ms[0].key) + ":" + Ser(ms[0].value)
    else Quote(ms[0].key) + ":" + Ser(ms[0].value) + "," + SerMembers(ms[1..], parent)
  }

  /** JSON.stringify(v): no text at all (undefined) for undefined. */
  function Stringify(v: Json): (r: Option<string>)
    ensures r.None? <==> v == Undefined
  {
    if v == Undefined then None else Some(Ser(v))
  }

  // ---------------------------------------------------------------- reading

  function HexValue(c: char): int {
    if '0' <= c <= '9' then c as int - '0' as int
    else if 'a' <= c <= 'f' then c as int - 'a' as int + 10
    else if 'A' <= c <= 'F' then c as int - 'A' as int + 10
    else -1
  }

  /** The number of leading decimal digits of `s`. */
  function DigitSpan(s: string): (k: nat)
    ensures k <= |s|
  {
    if |s| == 0 || !IsDigit(s[0]) then 0 else 1 + DigitSpan(s[1..])
  }

  /** The value of a string of decimal digits. */
  function DigitsValue(d: string): nat
  {
    if |d| == 0 then 0
    else
      var last := d[|d| - 1] as int - '0' as int;
      DigitsValue(d[..|d| - 1]) * 10 + (if 0 <= last < 10 then last else 0)
  }

  /** The string literal's characters up to its closing quote, and what
      follows that quote. */
  function ParseChars(s: string): (r: Option<(string, string)>)
    ensures r.Some? ==> |r.value.1| < |s|
    decreases |s|
  {
    if |s| == 0 then None
    else if s[0] == '"' then Some(("", s[1..]))
    else if s[0] == '\\' then
      if |s| < 2 then None
      else
        var e := s[1];
        if e == 'u' then
          if |s| < 6 then None
          else
            var h := [HexValue(s[2]), HexValue(s[3]), HexValue(s[4]), HexValue(s[5])];
            if h[0] < 0 || h[1] < 0 || h[2] < 0 || h[3] < 0 then None
            else
              var code := ((h[0] * 16 + h[1]) * 16 + h[2]) * 16 + h[3];
              if 0xD800 <= code <= 0xDFFF then None
              else
                match ParseChars(s[6..])
                case None => None
                case Some(p) => Some(([code as char] + p.0, p.1))
        else
          var c :=
            if e == '"' then Some('"')
            else if e == '\\' then Some('\\')
            else if e == '/' then Some('/')
            else if e == 'b' then Some(8 as char)
            else if e == 'f' then Some(12 as char)
            else if e == 'n' then Some(10 as char)
            else if e == 'r' then Some(13 as char)
            else if e == 't' then Some(9 as char)
            else None;
          if c.None? then None
          else
            match ParseChars(s[2..])
            case None => None
            case Some(p) => Some(([c.value] + p.0, p.1))
    else if (s[0] as int) < 0x20 then None
    else
      match ParseChars(s[1..])
      case None => None
      case Some(p) => Some(([s[0]] + p.0, p.1))
  }

  function ParseValue(s: string): (r: Option<(Json, string)>)
    ensures r.Some? ==> |r.value.1| < |s|
    decreases |s|, 0
  {
    if |s| == 0 then None
    else if s[0] == 'n' then
      if |s| >= 4 && s[..4] == "null" then Some((Null, s[4..])) else None
    else if s[0] == 't' then
      if |s| >= 4 && s[..4] == "true" then Some((Bool(true), s[4..])) else None
    else if s[0] == 'f' then
      if |s| >= 5 && s[..5] == "false" then Some((Bool(false), s[5..])) else None
    else if s[0] == '"' then
      match ParseChars(s[1..])
      case None => None
      case Some(p) => Some((Str(p.0), p.1))
    else if s[0] == '[' then ParseArray(s[1..])
    else if s[0] == '{' then ParseObject(s[1..])
    else if s[0] == '-' || IsDigit(s[0]) then ParseNumber(s)
    else None
  }

  /** An optional minus sign followed by one or more decimal digits. */
  function ParseNumber(s: string): (r: Option<(Json, string)>)
    requires |s| > 0
    ensures r.Some? ==> |r.value.1| < |s|
  {
    if s[0] == '-' then
      var k := DigitSpan(s[1..]);
      var m: int := DigitsValue(s[1..][..k]);
      if k == 0 then None else Some((Num(-m), s[1..][k..]))
    else
      var k := DigitSpan(s);
      if k == 0 then None else Some((Num(DigitsValue(s[..k])), s[k..]))
  }

  /** After the opening bracket of an array. */
  function ParseArray(s: string): (r: Option<(Json, string)>)
    ensures r.Some? ==> |r.value.1| < |s|
    decreases |s|, 2
  {
    if |s| > 0 && s[0] == ']' then Some((Arr([]), s[1..]))
    else
      match ParseItems(s)
      case None => None
      case Some(p) => Some((Arr(p.0), p.1))
  }

  /** One or more comma-separated values and the closing bracket. */
  function ParseItems(s: string): (r: Option<(seq<Json>, string)>)
    ensures r.Some? ==> |r.value.1| < |s|
    decreases |s|, 1
  {
    match ParseValue(s)
    case None => None
    case Some(p) => ParseItemsTail(p.0, p.1)
  }

  /** What follows one array element: the closing bracket or a comma and
      the remaining elements. */
  function ParseItemsTail(first: Json, rest: string): (r: Option<(seq<Json>, string)>)
    ensures r.Some? ==> |r.value.1| < |rest|
    decreases |rest|, 3
  {
    if |rest| > 0 && rest[0] == ']' then Some(([first], rest[1..]))
    else if |rest| > 0 && rest[0] == ',' then
      match ParseItems(rest[1..])
      case None => None
      case Some(q) => Some(([first] + q.0, q.1))
    else None
  }

  /** After the opening brace of an object. */
  function ParseObject(s: string): (r: Option<(Json, string)>)
    ensures r.Some? ==> |r.value.1| < |s|
    decreases |s|, 2
  {
    if |s| > 0 && s[0] == '}' then Some((Obj([]), s[1..]))
    else
      match ParseMembers(s)
      case None => None
      case Some(p) => Some((Obj(p.0), p.1))
  }

  /** One or more comma-separated "key":value pairs and the closing brace. */
  function ParseMembers(s: string): (r: Option<(seq<Member>, string)>)
    ensures r.Some? ==> |r.value.1| < |s|
    decreases |s|, 1
  {
    if |s| == 0 || s[0] != '"' then None
    else
      match ParseChars(s[1..])
      case None => None
      case Some(k) => ParseMemberValue(k.0, k.1)
  }

  /** The colon after a key, the member's value and what follows it. */
  function ParseMemberValue(key: string, s: string): (r: Option<(seq<Member>, string)>)
    ensures r.Some? ==> |r.value.1| < |s|
    decreases |s|, 4
  {
    if |s| == 0 || s[0] != ':' then None
    else
      match ParseValue(s[1..])
      case None => None
      case Some(p) => ParseMembersTail(Member(key, p.0), p.1)
  }

  /** What follows one member: the closing brace or a comma and the
      remaining members. */
  function ParseMembersTail(first: Member, rest: string): (r: Option<(seq<Member>, string)>)
    ensures r.Some? ==> |r.value.1| < |rest|
    decreases |rest|, 3
  {
    if |rest| > 0 && rest[0] == '}' then Some(([first], rest[1..]))
    else if |rest| > 0 && rest[0] == ',' then
      match ParseMembers(rest[1..])
      case None => None
      case Some(q) => Some(([first] + q.0, q.1))
    else None
  }

  /** JSON.parse on the subset of JSON text that JSON.stringify writes
      (None where JSON.parse would throw). */
  function Parse(text: string): (r: Option<Json>)
    ensures text == "" ==> r.None?
  {
    match ParseValue(text)
    case None => None
    case Some(p) => if p.1 == "" then Some(p.0) else None
  }

  // ------------------------------------------------------------ round trip

  lemma Concat3(a: string, b: string, c: string)
    ensures a + b + c == a + (b + c)
  {
  }

  lemma NumberDispatch(s: string)
    requires |s| > 0 && (s[0] == '-' || IsDigit(s[0]))
    ensures ParseValue(s) == ParseNumber(s)
  {
  }

  lemma ArrayDispatch(body: string)
    ensures ParseValue("[" + body) == ParseArray(body)
  {
    assert ("[" + body)[0] == '[' && ("[" + body)[1..] == body;
  }

  lemma ObjectDispatch(body: string)
    ensures ParseValue("{" + body) == ParseObject(body)
  {
    assert ("{" + body)[0] == '{' && ("{" + body)[1..] == body;
  }

  lemma StringDispatch(body: string)
    ensures ParseValue("\"" + body) ==
      match ParseChars(body)
      case None => None
      case Some(p) => Some((Str(p.0), p.1))
  {
    assert ("\"" + body)[0] == '"' && ("\"" + body)[1..] == body;
  }

  /** Writing a bracketed text and what follows it. */
  lemma Bracketed(open: string, body: string, close: string, rest: string)
    ensures open + body + close + rest == open + (body + close + rest)
  {
    Concat3(open, body, close);
    Concat3(open, body + close, rest);
  }

  /** What may follow a value in JSON text written by JSON.stringify. */
  predicate Delimited(rest: string) {
    rest == "" || rest[0] == ',' || rest[0] == ']' || rest[0] == '}'
  }

  lemma {:induction false} DigitsAreDigits(n: nat)
    ensures |Digits(n)| >= 1
    ensures forall i :: 0 <= i < |Digits(n)| ==> IsDigit(Digits(n)[i])
    ensures DigitsValue(Digits(n)) == n
    decreases n
  {
    if n >= 10 {
      DigitsAreDigits(n / 10);
      var d := Digits(n);
      assert d[..|d| - 1] == Digits(n / 10);
    }
  }

  lemma {:induction false} DigitSpanOf(d: string, rest: string)
    requires forall i :: 0 <= i < |d| ==> IsDigit(d[i])
    requires rest == "" || !IsDigit(rest[0])
    ensures DigitSpan(d + rest) == |d|
  {
    if |d| > 0 {
      assert (d + rest)[1..] == d[1..] + rest;
      DigitSpanOf(d[1..], rest);
    } else {
      assert d + rest == rest;
    }
  }

  /** The digits of a number followed by a delimiter: the digit span is
      exactly the digits. */
  lemma DigitsThenDelimiter(d: string, rest: string)
    requires forall i :: 0 <= i < |d| ==> IsDigit(d[i])
    requires Delimited(rest)
    ensures DigitSpan(d + rest) == |d|
    ensures (d + rest)[..|d|] == d && (d + rest)[|d|..] == rest
  {
    assert rest == "" || !IsDigit(rest[0]);
    DigitSpanOf(d, rest);
  }

  lemma NumberRoundTrip(n: int, rest: string)
    requires Delimited(rest)
    ensures ParseValue(NumberText(n) + rest) == Some((Num(n), rest))
  {
    var m: nat := if n < 0 then -n else n;
    var d := Digits(m);
    DigitsAreDigits(m);
    DigitsThenDelimiter(d, rest);
    if n < 0 {
      var s := "-" + (d + rest);
      Concat3("-", d, rest);
      assert s[0] == '-' && s[1..] == d + rest;
      NumberDispatch(s);
    } else {
      var s := d + rest;
      assert s[0] == d[0];
      NumberDispatch(s);
    }
  }

  lemma HexDigitValue(d: int)
    requires 0 <= d < 16
    ensures HexValue(HexDigit(d)) == d
  {
  }

  /** Reading the escape JSON.stringify writes for a control character
      without a short form. */
  lemma UnicodeEscapeRoundTrip(c: char, tail: string)
    requires c as int < 0x20
    ensures ParseChars(EscapeChar(c) + tail) == (match ParseChars(tail) case None => None case Some(p) => Some(([c] + p.0, p.1)))
  {
    var e := EscapeChar(c);
    var s := e + tail;
    if c as int != 8 && c as int != 9 && c as int != 10 && c as int != 12 && c as int != 13 {
      var hi, lo := c as int / 16, c as int % 16;
      HexDigitValue(hi);
      HexDigitValue(lo);
      assert s[0] == '\\' && s[1] == 'u' && s[2] == '0' && s[3] == '0';
      assert s[4] == HexDigit(hi) && s[5] == HexDigit(lo);
      assert s[6..] == tail;
      assert ((0 * 16 + 0) * 16 + hi) * 16 + lo == c as int;
    } else {
      assert s[0] == '\\' && s[2..] == tail;
    }
  }

  /** Reading a character JSON.stringify writes as itself. */
  lemma PlainCharStep(c: char, tail: string)
    requires c != '"' && c != '\\' && c as int >= 0x20
    ensures ParseChars([c] + tail) == (match ParseChars(tail) case None => None case Some(p) => Some(([c] + p.0, p.1)))
  {
    assert ([c] + tail)[0] == c && ([c] + tail)[1..] == tail;
  }

  /** Reading the escaped quote or backslash. */
  lemma QuotedCharStep(c: char, tail: string)
    requires c == '"' || c == '\\'
    ensures ParseChars(EscapeChar(c) + tail) == (match ParseChars(tail) case None => None case Some(p) => Some(([c] + p.0, p.1)))
  {
    var s := EscapeChar(c) + tail;
    assert s[0] == '\\' && s[1] == c && s[2..] == tail;
  }

  /** The escaped text of a string starts with the first character's
      escape. */
  lemma EscapeText(str: string, rest: string)
    requires |str| > 0
    ensures Escape(str) + "\"" + rest == EscapeChar(str[0]) + (Escape(str[1..]) + "\"" + rest)
  {
    var e := EscapeChar(str[0]);
    var t := Escape(str[1..]);
    assert Escape(str) == e + t;
    Concat3(e, t, "\"");
    Concat3(e, t + "\"", rest);
  }

  lemma {:induction false} CharsRoundTrip(str: string, rest: string)
    ensures ParseChars(Escape(str) + "\"" + rest) == Some((str, rest))
  {
    if |str| == 0 {
      assert Escape(str) + "\"" + rest == "\"" + rest;
    } else {
      var c := str[0];
      var tail := Escape(str[1..]) + "\"" + rest;
      CharsRoundTrip(str[1..], rest);
      EscapeText(str, rest);
      assert str == [c] + str[1..];
      if c as int < 0x20 {
        UnicodeEscapeRoundTrip(c, tail);
      } else if c == '"' || c == '\\' {
        QuotedCharStep(c, tail);
      } else {
        assert EscapeChar(c) == [c];
        PlainCharStep(c, tail);
      }
    }
  }

  lemma StringRoundTrip(str: string, rest: string)
    ensures ParseValue(Quote(str) + rest) == Some((Str(str), rest))
  {
    Bracketed("\"", Escape(str), "\"", rest);
    StringDispatch(Escape(str) + "\"" + rest);
    CharsRoundTrip(str, rest);
  }

  lemma LiteralRoundTrip(v: Json, rest: string)
    requires v.Undefined? || v.Null? || v.Bool?
    ensures ParseValue(Ser(v) + rest) == Some((Revive(v), rest))
  {
    var t := Ser(v);
    var s := t + rest;
    assert s[..|t|] == t && s[|t|..] == rest;
  }

  lemma ArrayRoundTrip(items: seq<Json>, rest: string)
    requires forall i, r :: 0 <= i < |items| && Delimited(r) ==> ParseValue(Ser(items[i]) + r) == Some((Revive(items[i]), r))
    ensures ParseValue(Ser(Arr(items)) + rest) == Some((Revive(Arr(items)), rest))
  {
    var body := SerItems(items) + "]" + rest;
    Bracketed("[", SerItems(items), "]", rest);
    ArrayDispatch(body);
    if |items| == 0 {
      assert body == "]" + rest;
      assert body[0] == ']' && body[1..] == rest;
    } else {
      ItemsRoundTrip(items, rest);
    }
  }

  /** The members an object writes out are smaller than the object. */
  lemma DefinedMembersSmaller(v: Json)
    requires v.Obj?
    ensures forall i :: 0 <= i < |DefinedMembers(v.members)| ==> DefinedMembers(v.members)[i].value < v
  {
  }

  lemma ObjectRoundTrip(v: Json, rest: string)
    requires v.Obj?
    requires forall i, r :: 0 <= i < |DefinedMembers(v.members)| && Delimited(r) ==>
      ParseValue(Ser(DefinedMembers(v.members)[i].value) + r) == Some((Revive(DefinedMembers(v.members)[i].value), r))
    ensures ParseValue(Ser(v) + rest) == Some((Revive(v), rest))
  {
    var dms := DefinedMembers(v.members);
    DefinedMembersSmaller(v);
    var body := SerMembers(dms, v) + "}" + rest;
    Bracketed("{", SerMembers(dms, v), "}", rest);
    ObjectDispatch(body);
    if |dms| == 0 {
      assert body == "}" + rest;
      assert body[0] == '}' && body[1..] == rest;
    } else {
      MembersText(dms, v, rest);
      assert body[0] == '"';
      MembersRoundTrip(dms, v, rest);
    }
  }

  /** Every value nested in an array or object reads back as Revive of
      itself, whatever delimiter follows it. */
  lemma {:induction false} ValueRoundTrip(v: Json, rest: string)
    requires Delimited(rest)
    ensures ParseValue(Ser(v) + rest) == Some((Revive(v), rest))
    decreases v
  {
    match v
    case Num(n) => NumberRoundTrip(n, rest);
    case Str(str) => StringRoundTrip(str, rest);
    case Arr(items) =>
      forall i, r | 0 <= i < |items| && Delimited(r)
        ensures ParseValue(Ser(items[i]) + r) == Some((Revive(items[i]), r))
      {
        ValueRoundTrip(items[i], r);
      }
      ArrayRoundTrip(items, rest);
    case Obj(ms) =>
      var dms := DefinedMembers(ms);
      forall i, r | 0 <= i < |dms| && Delimited(r)
        ensures ParseValue(Ser(dms[i].value) + r) == Some((Revive(dms[i].value), r))
      {
        ValueRoundTrip(dms[i].value, r);
      }
      ObjectRoundTrip(v, rest);
    case _ => LiteralRoundTrip(v, rest);
  }

  /** The text that follows the first element of a written array. */
  function AfterFirstItem(items: seq<Json>, rest: string): string
    requires |items| > 0
  {
    if |items| == 1 then "]" + rest else "," + SerItems(items[1..]) + "]" + rest
  }

  lemma ItemsText(items: seq<Json>, rest: string)
    requires |items| > 0
    ensures SerItems(items) + "]" + rest == Ser(items[0]) + AfterFirstItem(items, rest)
    ensures Delimited(AfterFirstItem(items, rest))
  {
    var x := Ser(items[0]);
    if |items| == 1 {
      assert SerItems(items) == x;
      assert x + "]" + rest == x + ("]" + rest);
    } else {
      var t := SerItems(items[1..]);
      assert SerItems(items) == x + "," + t;
      Concat3(x, ",", t);
      Concat3(x, "," + t, "]");
      Concat3(x, "," + t + "]", rest);
    }
  }

  lemma ItemsStep(s: string, v: Json, after: string)
    requires ParseValue(s) == Some((v, after))
    ensures ParseItems(s) == ParseItemsTail(v, after)
  {
  }

  lemma LastItem(v: Json, rest: string)
    ensures ParseItemsTail(v, "]" + rest) == Some(([v], rest))
  {
    assert ("]" + rest)[1..] == rest;
  }

  lemma NextItem(v: Json, tailText: string, rest: string)
    ensures ParseItemsTail(v, "," + tailText + "]" + rest) ==
      match ParseItems(tailText + "]" + rest)
      case None => None
      case Some(q) => Some(([v] + q.0, q.1))
  {
    assert ("," + tailText + "]" + rest)[1..] == tailText + "]" + rest;
  }

  lemma {:induction false} ItemsRoundTrip(items: seq<Json>, rest: string)
    requires |items| > 0
    requires forall i, r :: 0 <= i < |items| && Delimited(r) ==> ParseValue(Ser(items[i]) + r) == Some((Revive(items[i]), r))
    ensures ParseItems(SerItems(items) + "]" + rest) == Some((ReviveAll(items), rest))
  {
    var x := items[0];
    var after := AfterFirstItem(items, rest);
    ItemsText(items, rest);
    ItemsStep(Ser(x) + after, Revive(x), after);
    if |items| == 1 {
      LastItem(Revive(x), rest);
      assert ReviveAll(items) == [Revive(x)];
    } else {
      var tail := items[1..];
      forall i, r | 0 <= i < |tail| && Delimited(r)
        ensures ParseValue(Ser(tail[i]) + r) == Some((Revive(tail[i]), r))
      {
        assert tail[i] == items[i + 1];
      }
      ItemsRoundTrip(tail, rest);
      NextItem(Revive(x), SerItems(tail), rest);
      assert ReviveAll(items) == [Revive(x)] + ReviveAll(tail);
    }
  }

  /** Reading the key of a member written by JSON.stringify. */
  lemma KeyParse(key: string, afterKey: string)
    ensures ParseMembers(Quote(key) + afterKey) == ParseMemberValue(key, afterKey)
  {
    var s := Quote(key) + afterKey;
    assert s[0] == '"';
    assert s[1..] == Escape(key) + "\"" + afterKey;
    CharsRoundTrip(key, afterKey);
  }

  /** Reading the colon and the value of a member. */
  lemma ColonParse(key: string, valueText: string, revived: Json, after: string)
    requires ParseValue(valueText + after) == Some((revived, after))
    ensures ParseMemberValue(key, ":" + valueText + after) == ParseMembersTail(Member(key, revived), after)
  {
    var s := ":" + valueText + after;
    assert s[0] == ':' && s[1..] == valueText + after;
  }

  /** Reading one "key":value pair whose value text reads back as `revived`. */
  lemma KeyValueParse(key: string, valueText: string, revived: Json, after: string)
    requires ParseValue(valueText + after) == Some((revived, after))
    ensures ParseMembers(Quote(key) + ":" + valueText + after) == ParseMembersTail(Member(key, revived), after)
  {
    Concat3(Quote(key), ":", valueText);
    Concat3(Quote(key), ":" + valueText, after);
    KeyParse(key, ":" + valueText + after);
    ColonParse(key, valueText, revived, after);
  }

  /** The text that follows the first member of `ms` when the members and
      then `"}" + rest` are written out. */
  function AfterFirstMember(ms: seq<Member>, parent: Json, rest: string): string
    requires |ms| > 0
    requires forall i :: 0 <= i < |ms| ==> ms[i].value < parent
  {
    (if |ms| == 1 then "" else "," + SerMembers(ms[1..], parent)) + "}" + rest
  }

  lemma MembersText(ms: seq<Member>, parent: Json, rest: string)
    requires |ms| > 0
    requires forall i :: 0 <= i < |ms| ==> ms[i].value < parent
    ensures SerMembers(ms, parent) + "}" + rest == Quote(ms[0].key) + ":" + Ser(ms[0].value) + AfterFirstMember(ms, parent, rest)
    ensures Delimited(AfterFirstMember(ms, parent, rest))
  {
    var a := Quote(ms[0].key) + ":" + Ser(ms[0].value);
    if |ms| == 1 {
      assert SerMembers(ms, parent) == a;
      assert AfterFirstMember(ms, parent, rest) == "}" + rest;
      assert ("}" + rest)[0] == '}';
      Concat3(a, "}", rest);
    } else {
      var t := SerMembers(ms[1..], parent);
      assert SerMembers(ms, parent) == a + "," + t;
      assert AfterFirstMember(ms, parent, rest) == "," + t + "}" + rest;
      assert ("," + t + "}" + rest)[0] == ',';
      Concat3(a, ",", t);
      Concat3(a, "," + t, "}");
      Concat3(a, "," + t + "}", rest);
    }
  }

  lemma MembersHead(ms: seq<Member>, parent: Json, rest: string)
    requires |ms| > 0
    requires forall i :: 0 <= i < |ms| ==> ms[i].value < parent
    requires ParseValue(Ser(ms[0].value) + AfterFirstMember(ms, parent, rest)) == Some((Revive(ms[0].value), AfterFirstMember(ms, parent, rest)))
    ensures ParseMembers(SerMembers(ms, parent) + "}" + rest) == ParseMembersTail(Member(ms[0].key, Revive(ms[0].value)), AfterFirstMember(ms, parent, rest))
  {
    MembersText(ms, parent, rest);
    KeyValueParse(ms[0].key, Ser(ms[0].value), Revive(ms[0].value), AfterFirstMember(ms, parent, rest));
  }

  lemma LastMember(m: Member, rest: string)
    ensures ParseMembersTail(m, "}" + rest) == Some(([m], rest))
  {
    assert ("}" + rest)[1..] == rest;
  }

  lemma NextMember(m: Member, tailText: string)
    ensures ParseMembersTail(m, "," + tailText) ==
      match ParseMembers(tailText)
      case None => None
      case Some(q) => Some(([m] + q.0, q.1))
  {
    assert ("," + tailText)[0] == ',' && ("," + tailText)[1..] == tailText;
  }

  /** The last member of an object. */
  lemma OnlyMember(ms: seq<Member>, parent: Json, rest: string)
    requires |ms| == 1 && ms[0].value < parent
    requires ParseValue(Ser(ms[0].value) + AfterFirstMember(ms, parent, rest)) == Some((Revive(ms[0].value), AfterFirstMember(ms, parent, rest)))
    ensures ParseMembers(SerMembers(ms, parent) + "}" + rest) == Some((ReviveMembers(ms, parent), rest))
  {
    var first := Member(ms[0].key, Revive(ms[0].value));
    assert AfterFirstMember(ms, parent, rest) == "}" + rest;
    MembersHead(ms, parent, rest);
    LastMember(first, rest);
    assert ReviveMembers(ms, parent) == [first];
  }

  /** A member followed by more members that read back. */
  lemma ConsMember(ms: seq<Member>, parent: Json, rest: string)
    requires |ms| > 1
    requires forall i :: 0 <= i < |ms| ==> ms[i].value < parent
    requires ParseValue(Ser(ms[0].value) + AfterFirstMember(ms, parent, rest)) == Some((Revive(ms[0].value), AfterFirstMember(ms, parent, rest)))
    requires ParseMembers(SerMembers(ms[1..], parent) + "}" + rest) == Some((ReviveMembers(ms[1..], parent), rest))
    ensures ParseMembers(SerMembers(ms, parent) + "}" + rest) == Some((ReviveMembers(ms, parent), rest))
  {
    var first := Member(ms[0].key, Revive(ms[0].value));
    var tailText := SerMembers(ms[1..], parent) + "}" + rest;
    var t := SerMembers(ms[1..], parent);
    assert AfterFirstMember(ms, parent, rest) == "," + t + "}" + rest;
    Bracketed(",", t, "}", rest);
    MembersHead(ms, parent, rest);
    NextMember(first, tailText);
    assert ReviveMembers(ms, parent) == [first] + ReviveMembers(ms[1..], parent);
  }

  lemma {:induction false} MembersRoundTrip(ms: seq<Member>, parent: Json, rest: string)
    requires |ms| > 0
    requires forall i :: 0 <= i < |ms| ==> ms[i].value < parent
    requires forall i, r :: 0 <= i < |ms| && Delimited(r) ==> ParseValue(Ser(ms[i].value) + r) == Some((Revive(ms[i].value), r))
    ensures ParseMembers(SerMembers(ms, parent) + "}" + rest) == Some((ReviveMembers(ms, parent), rest))
    decreases |ms|
  {
    MembersText(ms, parent, rest);
    if |ms| == 1 {
      OnlyMember(ms, parent, rest);
    } else {
      var tail := ms[1..];
      forall i, r | 0 <= i < |tail| && Delimited(r)
        ensures ParseValue(Ser(tail[i].value) + r) == Some((Revive(tail[i].value), r))
      {
        assert tail[i] == ms[i + 1];
      }
      MembersRoundTrip(tail, parent, rest);
      ConsMember(ms, parent, rest);
    }
  }

  /** JSON.parse(JSON.stringify(v)) == Normalize(v) for every value that
      JSON.stringify writes out. */
  lemma StringifyParse(v: Json)
    requires v != Undefined
    ensures Stringify(v).Some?
    ensures Parse(Stringify(v).value) == Some(Normalize(v))
  {
    ValueRoundTrip(v, "");
    assert Ser(v) + "" == Ser(v);
  }
}
