/** JSON texts (RFC 8259) of objects, arrays, strings, natural numbers and literals: the printer the gateway and
    the mock backend use, and a parser. */
module Json {
  import opened Collections

  datatype Json =
    | Null
    | Bool(b: bool)
    | Num(n: nat)
    | Str(s: string)
    | Arr(items: Items)
    | Obj(fields: Fields)

  datatype Items = NoItems | Item(head: Json, tail: Items)

  datatype Fields = NoFields | Field(key: string, value: Json, rest: Fields)

  // ---------------------------------------------------------------- strings

  function HexDigit(n: nat): char
    requires n < 16
  {
    if n < 10 then ('0' as int + n) as char else ('a' as int + n - 10) as char
  }

  function Hex4(n: nat): (s: string)
    requires n < 0x1_0000
    ensures |s| == 4
  {
    [HexDigit(n / 4096), HexDigit(n / 256 % 16), HexDigit(n / 16 % 16), HexDigit(n % 16)]
  }

  /** One character inside a quoted string, with json.Marshal's default escapes. */
  function EscapeChar(c: char): (s: string)
    ensures s != ""
  {
    if c == '\"' then "\\\""
    else if c == '\\' then "\\\\"
    else if c as int == 8 then "\\b"
    else if c as int == 12 then "\\f"
    else if c == '\n' then "\\n"
    else if c == '\r' then "\\r"
    else if c == '\t' then "\\t"
    else if c as int < 0x20 || c == '<' || c == '>' || c == '&' || c as int == 0x2028 || c as int == 0x2029
    then "\\u" + Hex4(c as int)
    else [c]
  }

  function Escape(s: string): string {
    if s == "" then "" else EscapeChar(s[0]) + Escape(s[1..])
  }

  function HexValue(c: char): Option<nat> {
    if '0' <= c <= '9' then Some(c as int - '0' as int)
    else if 'a' <= c <= 'f' then Some(c as int - 'a' as int + 10)
    else if 'A' <= c <= 'F' then Some(c as int - 'A' as int + 10)
    else None
  }

  /** Four hexadecimal digits. */
  function ParseHex4(s: string): (r: Option<nat>)
    ensures r.Some? ==> r.value < 0x1_0000 && |s| >= 4
  {
    if |s| < 4 then None
    else match (HexValue(s[0]), HexValue(s[1]), HexValue(s[2]), HexValue(s[3]))
      case (Some(a), Some(b), Some(c), Some(d)) =>
        if a < 16 && b < 16 && c < 16 && d < 16 then Some(4096 * a + 256 * b + 16 * c + d) else None
      case _ => None
  }

  const REPLACEMENT: char := '\U{FFFD}'

  /** The character of an escape beginning after the backslash, and what is left. A surrogate pair is one
      character, a lone surrogate the replacement character. */
  function ParseEscape(s: string): (r: Option<(char, string)>)
    ensures r.Some? ==> |r.value.1| < |s|
  {
    if s == "" then None
    else if s[0] == '\"' || s[0] == '\\' || s[0] == '/' then Some((s[0], s[1..]))
    else if s[0] == 'b' then Some((8 as char, s[1..]))
    else if s[0] == 'f' then Some((12 as char, s[1..]))
    else if s[0] == 'n' then Some(('\n', s[1..]))
    else if s[0] == 'r' then Some(('\r', s[1..]))
    else if s[0] == 't' then Some(('\t', s[1..]))
    else if s[0] != 'u' then None
    else match ParseHex4(s[1..])
      case None => None
      case Some(n) =>
        var rest := s[5..];
        if !(0xD800 <= n < 0xE000) then Some((n as char, rest))
        else if n < 0xDC00 && |rest| >= 6 && rest[0] == '\\' && rest[1] == 'u' && ParseHex4(rest[2..]).Some?
                && 0xDC00 <= ParseHex4(rest[2..]).value < 0xE000
        then Some(((0x1_0000 + (n - 0xD800) * 0x400 + (ParseHex4(rest[2..]).value - 0xDC00)) as char, rest[6..]))
        else Some((REPLACEMENT, rest))
  }

  /** The string that ends at the first unescaped quote, and what follows it. */
  function ParseString(s: string): (r: Option<(string, string)>)
    ensures r.Some? ==> |r.value.1| < |s|
    decreases |s|
  {
    if s == "" || (s[0] as int) < 0x20 then None
    else if s[0] == '\"' then Some(("", s[1..]))
    else
      var first := if s[0] == '\\' then ParseEscape(s[1..]) else Some((s[0], s[1..]));
      match first
      case None => None
      case Some(cr) =>
        match ParseString(cr.1)
        case None => None
        case Some(sr) => Some(([cr.0] + sr.0, sr.1))
  }

  lemma HexRoundTrip(n: nat)
    requires n < 16
    ensures HexValue(HexDigit(n)) == Some(n)
  {}

  lemma Hex4Value(n: nat)
    requires n < 0x1_0000
    ensures n == 4096 * (n / 4096) + 256 * (n / 256 % 16) + 16 * (n / 16 % 16) + n % 16
  {
    assert n / 256 / 16 == n / 4096 && n / 16 / 16 == n / 256;
  }

  lemma Hex4Read(a: nat, b: nat, c: nat, d: nat, rest: string)
    requires a < 16 && b < 16 && c < 16 && d < 16
    ensures ParseHex4([HexDigit(a), HexDigit(b), HexDigit(c), HexDigit(d)] + rest)
         == Some(4096 * a + 256 * b + 16 * c + d)
  {
    HexRoundTrip(a);
    HexRoundTrip(b);
    HexRoundTrip(c);
    HexRoundTrip(d);
  }

  lemma Hex4RoundTrip(n: nat, rest: string)
    requires n < 0x1_0000
    ensures ParseHex4(Hex4(n) + rest) == Some(n)
  {
    Hex4Value(n);
    Hex4Read(n / 4096, n / 256 % 16, n / 16 % 16, n % 16, rest);
  }

  lemma UnicodeEscapeRoundTrip(n: nat, rest: string)
    requires n < 0xD800
    ensures ParseEscape("u" + Hex4(n) + rest) == Some((n as char, rest))
  {
    var s := "u" + Hex4(n) + rest;
    assert s[1..] == Hex4(n) + rest && s[5..] == rest;
    Hex4RoundTrip(n, rest);
  }

  lemma PairReads(hi: nat, lo: nat, rest: string)
    requires 0xD800 <= hi < 0xDC00 <= lo < 0xE000
    ensures ParseEscape("u" + Hex4(hi) + ("\\u" + Hex4(lo) + rest))
         == Some(((0x1_0000 + (hi - 0xD800) * 0x400 + (lo - 0xDC00)) as char, rest))
  {
    var second := "\\u" + Hex4(lo) + rest;
    var s := "u" + Hex4(hi) + second;
    assert s[1..] == Hex4(hi) + second && s[5..] == second;
    assert second[2..] == Hex4(lo) + rest && second[6..] == rest;
    Hex4RoundTrip(hi, second);
    Hex4RoundTrip(lo, rest);
  }

  /** A character beyond the first 65536, escaped as two, reads as one. */
  lemma SurrogatePair(c: char, rest: string)
    requires c as int >= 0x1_0000
    ensures var n := c as int - 0x1_0000;
            ParseEscape("u" + Hex4(0xD800 + n / 0x400) + ("\\u" + Hex4(0xDC00 + n % 0x400) + rest)) == Some((c, rest))
  {
    var n := c as int - 0x1_0000;
    PairReads(0xD800 + n / 0x400, 0xDC00 + n % 0x400, rest);
  }

  /** An escaped character reads back as itself. */
  lemma EscapeCharRoundTrip(c: char, rest: string)
    ensures var s := EscapeChar(c) + rest;
            && s[0] as int >= 0x20 && s[0] != '\"'
            && (s[0] == '\\' ==> ParseEscape(s[1..]) == Some((c, rest)))
            && (s[0] != '\\' ==> s[0] == c && s[1..] == rest)
  {
    var s := EscapeChar(c) + rest;
    if |EscapeChar(c)| == 6 {
      assert s[1..] == "u" + Hex4(c as int) + rest;
      UnicodeEscapeRoundTrip(c as int, rest);
    } else if |EscapeChar(c)| == 2 {
      assert s[1..] == [EscapeChar(c)[1]] + rest;
      assert s[1..][1..] == rest;
    }
  }

  lemma {:induction false} StringRoundTrip(s: string, rest: string)
    ensures ParseString(Escape(s) + "\"" + rest) == Some((s, rest))
    decreases |s|
  {
    var text := Escape(s) + "\"" + rest;
    if s == "" {
      assert text[0] == '\"' && text[1..] == rest;
    } else {
      var tail := Escape(s[1..]) + "\"" + rest;
      assert text == EscapeChar(s[0]) + tail;
      EscapeCharRoundTrip(s[0], tail);
      StringRoundTrip(s[1..], rest);
      assert [s[0]] + s[1..] == s;
    }
  }

  // ---------------------------------------------------------------- numbers

  predicate IsDigit(c: char) {
    '0' <= c <= '9'
  }

  function Digit(n: nat): char
    requires n < 10
  {
    ('0' as int + n) as char
  }

  function Digits(n: nat): (s: string)
    ensures s != "" && forall i :: 0 <= i < |s| ==> IsDigit(s[i])
  {
    if n < 10 then [Digit(n)] else Digits(n / 10) + [Digit(n % 10)]
  }

  /** Reads digits on to an accumulated value. */
  function ParseDigits(acc: nat, s: string): (r: (nat, string))
    ensures |r.1| <= |s|
    decreases |s|
  {
    if s != "" && IsDigit(s[0]) then ParseDigits(10 * acc + (s[0] as int - '0' as int), s[1..]) else (acc, s)
  }

  /** A number has no leading zero. */
  function ParseNat(s: string): (r: (nat, string))
    requires s != "" && IsDigit(s[0])
    ensures |r.1| < |s|
  {
    if s[0] == '0' then (0, s[1..]) else ParseDigits(s[0] as int - '0' as int, s[1..])
  }

  lemma {:induction false} DigitsRead(n: nat, rest: string)
    requires n >= 1
    ensures Digits(n)[0] != '0'
    ensures ParseDigits(Digits(n)[0] as int - '0' as int, Digits(n)[1..] + rest) == ParseDigits(n, rest)
  {
    if n < 10 {
      assert Digits(n)[1..] + rest == rest;
    } else {
      var d := Digit(n % 10);
      DigitsRead(n / 10, [d] + rest);
      assert Digits(n)[1..] + rest == Digits(n / 10)[1..] + ([d] + rest);
      assert ([d] + rest)[1..] == rest;
    }
  }

  lemma ZeroRoundTrip(rest: string)
    ensures ParseNat(Digits(0) + rest) == (0, rest)
  {
    assert Digits(0) == "0";
    assert ("0" + rest)[1..] == rest;
  }

  lemma PositiveRoundTrip(n: nat, rest: string)
    requires n > 0 && (rest != "" ==> !IsDigit(rest[0]))
    ensures ParseNat(Digits(n) + rest) == (n, rest)
  {
    var s := Digits(n) + rest;
    assert s[0] == Digits(n)[0] && s[1..] == Digits(n)[1..] + rest;
    DigitsRead(n, rest);
    assert ParseDigits(n, rest) == (n, rest);
  }

  lemma NatRoundTrip(n: nat, rest: string)
    requires rest != "" ==> !IsDigit(rest[0])
    ensures ParseNat(Digits(n) + rest) == (n, rest)
  {
    if n == 0 {
      ZeroRoundTrip(rest);
    } else {
      PositiveRoundTrip(n, rest);
    }
  }

  // ---------------------------------------------------------------- values

  function Quote(s: string): string {
    "\"" + Escape(s) + "\""
  }

  function Print(v: Json): string {
    match v
    case Null => "null"
    case Bool(b) => if b then "true" else "false"
    case Num(n) => Digits(n)
    case Str(s) => Quote(s)
    case Arr(items) => "[" + PrintItems(items) + "]"
    case Obj(fields) => "{" + PrintFields(fields) + "}"
  }

  function PrintItems(items: Items): string {
    match items
    case NoItems => ""
    case Item(head, NoItems) => Print(head)
    case Item(head, tail) => Print(head) + "," + PrintItems(tail)
  }

  function PrintFields(fields: Fields): string {
    match fields
    case NoFields => ""
    case Field(key, value, NoFields) => Quote(key) + ":" + Print(value)
    case Field(key, value, rest) => Quote(key) + ":" + Print(value) + "," + PrintFields(rest)
  }

  function Skip(s: string): (t: string)
    ensures |t| <= |s|
  {
    if s != "" && (s[0] == ' ' || s[0] == '\t' || s[0] == '\n' || s[0] == '\r') then Skip(s[1..]) else s
  }

  predicate Starts(s: string, c: char) {
    s != "" && s[0] == c
  }

  /** A bare literal or number. */
  function ParseLiteral(t: string): (r: Option<(Json, string)>)
    ensures r.Some? ==> |r.value.1| < |t|
  {
    if t == "" then None
    else if IsDigit(t[0]) then
      var p := ParseNat(t);
      Some((Num(p.0), p.1))
    else if "null" <= t then Some((Null, t[4..]))
    else if "true" <= t then Some((Bool(true), t[4..]))
    else if "false" <= t then Some((Bool(false), t[5..]))
    else None
  }

  function ParseValue(s: string): (r: Option<(Json, string)>)
    ensures r.Some? ==> |r.value.1| < |s|
    decreases |s|, 1
  {
    var t := Skip(s);
    if Starts(t, '\"') then
      match ParseString(t[1..])
      case None => None
      case Some(p) => Some((Str(p.0), p.1))
    else if Starts(t, '[') then ParseArr(t[1..])
    else if Starts(t, '{') then ParseObj(t[1..])
    else ParseLiteral(t)
  }

  /** An array, after its opening bracket. */
  function ParseArr(s: string): (r: Option<(Json, string)>)
    ensures r.Some? ==> |r.value.1| < |s|
    decreases |s|, 3
  {
    var u := Skip(s);
    if Starts(u, ']') then Some((Arr(NoItems), u[1..]))
    else
      match ParseItems(u)
      case None => None
      case Some(p) => Some((Arr(p.0), p.1))
  }

  /** An object, after its opening brace. */
  function ParseObj(s: string): (r: Option<(Json, string)>)
    ensures r.Some? ==> |r.value.1| < |s|
    decreases |s|, 4
  {
    var u := Skip(s);
    if Starts(u, '}') then Some((Obj(NoFields), u[1..]))
    else
      match ParseFields(u)
      case None => None
      case Some(p) => Some((Obj(p.0), p.1))
  }

  /** One or more items up to the closing bracket. */
  function ParseItems(s: string): (r: Option<(Items, string)>)
    ensures r.Some? ==> |r.value.1| < |s|
    decreases |s|, 2
  {
    match ParseValue(s)
    case None => None
    case Some(p) =>
      var t := Skip(p.1);
      if Starts(t, ']') then Some((Item(p.0, NoItems), t[1..]))
      else if Starts(t, ',') then
        match ParseItems(t[1..])
        case None => None
        case Some(q) => Some((Item(p.0, q.0), q.1))
      else None
  }

  /** A key, its colon and its value. */
  function ParseMember(s: string): (r: Option<(string, Json, string)>)
    ensures r.Some? ==> |r.value.2| < |s|
    decreases |s|, 2
  {
    var k := Skip(s);
    if !Starts(k, '\"') then None
    else
      match ParseString(k[1..])
      case None => None
      case Some(key) =>
        var colon := Skip(key.1);
        if !Starts(colon, ':') then None
        else
          match ParseValue(colon[1..])
          case None => None
          case Some(p) => Some((key.0, p.0, p.1))
  }

  /** One or more members up to the closing brace. */
  function ParseFields(s: string): (r: Option<(Fields, string)>)
    ensures r.Some? ==> |r.value.1| < |s|
    decreases |s|, 3
  {
    match ParseMember(s)
    case None => None
    case Some(m) =>
      var t := Skip(m.2);
      if Starts(t, '}') then Some((Field(m.0, m.1, NoFields), t[1..]))
      else if Starts(t, ',') then
        match ParseFields(t[1..])
        case None => None
        case Some(q) => Some((Field(m.0, m.1, q.0), q.1))
      else None
  }

  /** The whole text is one value. */
  function Unmarshal(s: string): Option<Json> {
    match ParseValue(s)
    case None => None
    case Some(p) => if Skip(p.1) == "" then Some(p.0) else None
  }

  /** No value begins like white space or a closing bracket. */
  lemma PrintStarts(v: Json)
    ensures Print(v) != ""
    ensures Print(v)[0] !in {' ', '\t', '\n', '\r', ']', '}', ','}
  {}

  lemma ReadArr(inner: string, v: Json, rest: string)
    requires ParseArr(inner + ("]" + rest)) == Some((v, rest))
    ensures ParseValue("[" + inner + "]" + rest) == Some((v, rest))
  {
    var s := "[" + inner + "]" + rest;
    assert Skip(s) == s && s[1..] == inner + ("]" + rest);
  }

  lemma ReadObj(inner: string, v: Json, rest: string)
    requires ParseObj(inner + ("}" + rest)) == Some((v, rest))
    ensures ParseValue("{" + inner + "}" + rest) == Some((v, rest))
  {
    var s := "{" + inner + "}" + rest;
    assert Skip(s) == s && s[1..] == inner + ("}" + rest);
  }

  lemma ReadStr(str: string, rest: string)
    ensures ParseValue(Quote(str) + rest) == Some((Str(str), rest))
  {
    var s := Quote(str) + rest;
    assert Skip(s) == s && s[1..] == Escape(str) + "\"" + rest;
    StringRoundTrip(str, rest);
  }

  lemma ReadLiteral(v: Json, rest: string)
    requires v.Null? || v.Bool? || (v.Num? && (rest != "" ==> !IsDigit(rest[0])))
    ensures ParseValue(Print(v) + rest) == Some((v, rest))
  {
    var s := Print(v) + rest;
    assert Skip(s) == s && s[|Print(v)|..] == rest;
    if v.Num? {
      NatRoundTrip(v.n, rest);
    }
  }

  predicate AfterValue(more: string) {
    more != "" && more[0] in {',', ']', '}'}
  }

  /** A printed value reads back, and leaves what follows. */
  lemma {:induction false} ValueRoundTrip(v: Json, rest: string)
    requires rest != "" ==> !IsDigit(rest[0])
    ensures ParseValue(Print(v) + rest) == Some((v, rest))
    decreases v, 0
  {
    match v
    case Str(str) =>
      ReadStr(str, rest);
    case Arr(items) =>
      ArrRoundTrip(items, rest);
      ReadArr(PrintItems(items), v, rest);
    case Obj(fields) =>
      ObjRoundTrip(fields, rest);
      ReadObj(PrintFields(fields), v, rest);
    case _ =>
      ReadLiteral(v, rest);
  }

  lemma {:induction false} ArrRoundTrip(items: Items, rest: string)
    ensures ParseArr(PrintItems(items) + ("]" + rest)) == Some((Arr(items), rest))
    decreases items, 2
  {
    var u := PrintItems(items) + ("]" + rest);
    if items == NoItems {
      assert u == "]" + rest && u[1..] == rest;
    } else {
      ItemsRoundTrip(items, rest);
    }
  }

  lemma {:induction false} ObjRoundTrip(fields: Fields, rest: string)
    ensures ParseObj(PrintFields(fields) + ("}" + rest)) == Some((Obj(fields), rest))
    decreases fields, 2
  {
    var u := PrintFields(fields) + ("}" + rest);
    if fields == NoFields {
      assert u == "}" + rest && u[1..] == rest;
    } else {
      FieldsRoundTrip(fields, rest);
    }
  }

  lemma ReadItem(v: Json, more: string)
    requires AfterValue(more) && ParseValue(Print(v) + more) == Some((v, more))
    ensures more[0] == ']' ==> ParseItems(Print(v) + more) == Some((Item(v, NoItems), more[1..]))
    ensures forall items, rest | ParseItems(more[1..]) == Some((items, rest)) && more[0] == ',' ::
              ParseItems(Print(v) + more) == Some((Item(v, items), rest))
  {
    assert Skip(more) == more;
  }

  lemma {:induction false} ItemsRoundTrip(items: Items, rest: string)
    requires items.Item?
    ensures var u := PrintItems(items) + ("]" + rest);
            Skip(u) == u && !Starts(u, ']') && ParseItems(u) == Some((items, rest))
    decreases items, 1
  {
    var u := PrintItems(items) + ("]" + rest);
    var more := if items.tail == NoItems then "]" + rest else "," + (PrintItems(items.tail) + ("]" + rest));
    assert u == Print(items.head) + more;
    PrintStarts(items.head);
    ValueRoundTrip(items.head, more);
    ReadItem(items.head, more);
    if items.tail != NoItems {
      assert more[1..] == PrintItems(items.tail) + ("]" + rest);
      ItemsRoundTrip(items.tail, rest);
    }
  }

  lemma ReadMember(key: string, value: string, v: Json, more: string)
    requires ParseValue(value) == Some((v, more))
    ensures var s := Quote(key) + ":" + value;
            Skip(s) == s && !Starts(s, '}') && ParseMember(s) == Some((key, v, more))
  {
    var s := Quote(key) + ":" + value;
    var afterKey := ":" + value;
    assert Skip(s) == s && s[1..] == Escape(key) + "\"" + afterKey;
    StringRoundTrip(key, afterKey);
    assert Skip(afterKey) == afterKey && afterKey[1..] == value;
  }

  /** What follows the first member of an object. */
  function AfterField(fields: Fields, rest: string): (more: string)
    requires fields.Field?
    ensures AfterValue(more)
  {
    if fields.rest == NoFields then "}" + rest else "," + (PrintFields(fields.rest) + ("}" + rest))
  }

  lemma Regroup(a: string, b: string, c: string, d: string, e: string)
    ensures a + b + c + d + e == a + (b + (c + (d + e)))
  {
    Assoc(a + b, c, d + e);
    Assoc(a + b + c, d, e);
    Assoc(a, b, c + (d + e));
  }

  lemma FieldsText(fields: Fields, rest: string)
    requires fields.Field?
    ensures PrintFields(fields) + ("}" + rest)
         == Quote(fields.key) + ":" + (Print(fields.value) + AfterField(fields, rest))
  {
    var k, v := Quote(fields.key) + ":", Print(fields.value);
    if fields.rest == NoFields {
      Assoc(k, v, "}" + rest);
    } else {
      Regroup(k, v, ",", PrintFields(fields.rest), "}" + rest);
    }
  }

  lemma {:induction false} FieldsRoundTrip(fields: Fields, rest: string)
    requires fields.Field?
    ensures var u := PrintFields(fields) + ("}" + rest);
            Skip(u) == u && !Starts(u, '}') && ParseFields(u) == Some((fields, rest))
    decreases fields, 1
  {
    var more := AfterField(fields, rest);
    FieldsText(fields, rest);
    ValueRoundTrip(fields.value, more);
    ReadMember(fields.key, Print(fields.value) + more, fields.value, more);
    assert Skip(more) == more;
    if fields.rest == NoFields {
      assert more[1..] == rest;
    } else {
      FieldsRoundTrip(fields.rest, rest);
      assert more[1..] == PrintFields(fields.rest) + ("}" + rest);
    }
  }

  /** Whatever was printed parses back to itself. */
  lemma UnmarshalPrint(v: Json)
    ensures Unmarshal(Print(v)) == Some(v)
  {
    ValueRoundTrip(v, "");
    assert Print(v) + "" == Print(v);
  }

  // ---------------------------------------------------------------- truncation

  lemma {:induction false} SkipExtends(s: string, q: string)
    requires Skip(s) != ""
    ensures Skip(s + q) == Skip(s) + q
  {
    if Skip(s) != s {
      assert (s + q)[1..] == s[1..] + q;
      SkipExtends(s[1..], q);
    }
  }

  lemma Hex4Extends(s: string, q: string)
    requires |s| >= 4
    ensures ParseHex4(s + q) == ParseHex4(s)
  {}

  /** Inside a string that is closed, more text after it changes no escape; without the closing quote a lone
      surrogate could still become half of a pair. */
  lemma EscapeExtends(s: string, q: string)
    requires ParseEscape(s).Some? && ParseString(ParseEscape(s).value.1).Some?
    ensures ParseEscape(s + q) == Some((ParseEscape(s).value.0, ParseEscape(s).value.1 + q))
  {
    var t := s + q;
    if s[0] != 'u' {
      assert t[1..] == s[1..] + q;
    } else {
      var rest := s[5..];
      assert t[1..] == s[1..] + q && t[5..] == rest + q;
      Hex4Extends(s[1..], q);
      if rest[0] == '\\' && |rest| >= 2 && rest[1] == 'u' {
        assert ParseEscape(rest[1..]).Some?;
        assert rest[1..][1..] == rest[2..];
        assert (rest + q)[2..] == rest[2..] + q && (rest + q)[6..] == rest[6..] + q;
        Hex4Extends(rest[2..], q);
      } else {
        assert rest[0] == '\\' ==> ParseEscape(rest[1..]).Some?;
        assert (rest + q)[0] == rest[0];
      }
    }
  }

  lemma {:induction false} StringExtends(s: string, q: string)
    requires ParseString(s).Some?
    ensures ParseString(s + q) == Some((ParseString(s).value.0, ParseString(s).value.1 + q))
    decreases |s|
  {
    var t := s + q;
    assert t[1..] == s[1..] + q;
    if s[0] == '\\' {
      var rest := ParseEscape(s[1..]).value.1;
      EscapeExtends(s[1..], q);
      StringExtends(rest, q);
    } else if s[0] != '\"' {
      StringExtends(s[1..], q);
    }
  }

  lemma {:induction false} DigitsExtend(acc: nat, s: string, q: string)
    requires ParseDigits(acc, s).1 != ""
    ensures ParseDigits(acc, s + q) == (ParseDigits(acc, s).0, ParseDigits(acc, s).1 + q)
    decreases |s|
  {
    if IsDigit(s[0]) {
      assert (s + q)[1..] == s[1..] + q;
      DigitsExtend(10 * acc + (s[0] as int - '0' as int), s[1..], q);
    }
  }

  lemma LiteralExtends(t: string, q: string)
    requires ParseLiteral(t).Some? && (ParseLiteral(t).value.0.Num? ==> ParseLiteral(t).value.1 != "")
    ensures ParseLiteral(t + q) == Some((ParseLiteral(t).value.0, ParseLiteral(t).value.1 + q))
  {
    var u := t + q;
    assert u[0] == t[0];
    if IsDigit(t[0]) {
      assert u[1..] == t[1..] + q;
      if t[0] != '0' {
        DigitsExtend(t[0] as int - '0' as int, t[1..], q);
      }
    } else if "false" <= t {
      assert u[..5] == t[..5] && u[5..] == t[5..] + q;
    } else {
      assert u[..4] == t[..4] && u[4..] == t[4..] + q;
    }
  }

  /** A value that was read in full is read the same when more text follows. A number that reaches the end of
      the text could go on. */
  lemma {:induction false} ValueExtends(s: string, q: string)
    requires ParseValue(s).Some? && (ParseValue(s).value.0.Num? ==> ParseValue(s).value.1 != "")
    ensures ParseValue(s + q) == Some((ParseValue(s).value.0, ParseValue(s).value.1 + q))
    decreases |s|, 1
  {
    var t := Skip(s);
    SkipExtends(s, q);
    assert (t + q)[1..] == t[1..] + q && (t + q)[0] == t[0];
    if Starts(t, '\"') {
      StringExtends(t[1..], q);
    } else if Starts(t, '[') {
      ArrExtends(t[1..], q);
    } else if Starts(t, '{') {
      ObjExtends(t[1..], q);
    } else {
      LiteralExtends(t, q);
    }
  }

  lemma {:induction false} ArrExtends(s: string, q: string)
    requires ParseArr(s).Some?
    ensures ParseArr(s + q) == Some((ParseArr(s).value.0, ParseArr(s).value.1 + q))
    decreases |s|, 3
  {
    var u := Skip(s);
    SkipExtends(s, q);
    assert (u + q)[0] == u[0] && (u + q)[1..] == u[1..] + q;
    if !Starts(u, ']') {
      ItemsExtend(u, q);
    }
  }

  lemma {:induction false} ObjExtends(s: string, q: string)
    requires ParseObj(s).Some?
    ensures ParseObj(s + q) == Some((ParseObj(s).value.0, ParseObj(s).value.1 + q))
    decreases |s|, 4
  {
    var u := Skip(s);
    SkipExtends(s, q);
    assert (u + q)[0] == u[0] && (u + q)[1..] == u[1..] + q;
    if !Starts(u, '}') {
      FieldsExtend(u, q);
    }
  }

  lemma {:induction false} ItemsExtend(s: string, q: string)
    requires ParseItems(s).Some?
    ensures ParseItems(s + q) == Some((ParseItems(s).value.0, ParseItems(s).value.1 + q))
    decreases |s|, 2
  {
    var p := ParseValue(s).value;
    var t := Skip(p.1);
    ValueExtends(s, q);
    SkipExtends(p.1, q);
    assert (t + q)[0] == t[0] && (t + q)[1..] == t[1..] + q;
    if Starts(t, ',') {
      ItemsExtend(t[1..], q);
    }
  }

  lemma {:induction false} MemberExtends(s: string, q: string)
    requires ParseMember(s).Some? && (ParseMember(s).value.1.Num? ==> ParseMember(s).value.2 != "")
    ensures var m := ParseMember(s).value; ParseMember(s + q) == Some((m.0, m.1, m.2 + q))
    decreases |s|, 2
  {
    var k := Skip(s);
    SkipExtends(s, q);
    assert (k + q)[0] == k[0] && (k + q)[1..] == k[1..] + q;
    var key := ParseString(k[1..]).value;
    StringExtends(k[1..], q);
    var colon := Skip(key.1);
    SkipExtends(key.1, q);
    assert (colon + q)[0] == colon[0] && (colon + q)[1..] == colon[1..] + q;
    ValueExtends(colon[1..], q);
  }

  lemma {:induction false} FieldsExtend(s: string, q: string)
    requires ParseFields(s).Some?
    ensures ParseFields(s + q) == Some((ParseFields(s).value.0, ParseFields(s).value.1 + q))
    decreases |s|, 3
  {
    var m := ParseMember(s).value;
    var t := Skip(m.2);
    MemberExtends(s, q);
    SkipExtends(m.2, q);
    assert (t + q)[0] == t[0] && (t + q)[1..] == t[1..] + q;
    if Starts(t, ',') {
      FieldsExtend(t[1..], q);
    }
  }

  lemma NothingIsNoValue()
    ensures ParseValue("") == None
  {
    assert ParseLiteral("") == None;
  }

  /** What starts with a brace is an object. */
  lemma BraceMeansObject(s: string)
    requires s != "" && s[0] == '{' && ParseValue(s).Some?
    ensures ParseValue(s).value.0.Obj?
  {
    assert Skip(s) == s;
  }

  lemma ReadablePrefixIsAll(v: Json, j: nat)
    requires v.Obj? && j <= |Print(v)| && ParseValue(Print(v)[..j]).Some?
    ensures j == |Print(v)|
  {
    var text := Print(v);
    var p, q := text[..j], text[j..];
    assert text[0] == '{';
    NothingIsNoValue();
    BraceMeansObject(p);
    ValueExtends(p, q);
    ValueRoundTrip(v, "");
    assert p + q == text && text + "" == text;
  }

  /** No proper prefix of a printed object is JSON. */
  lemma ProperPrefixFails(v: Json, j: nat)
    requires v.Obj? && j < |Print(v)|
    ensures Unmarshal(Print(v)[..j]) == None
  {
    if ParseValue(Print(v)[..j]).Some? {
      ReadablePrefixIsAll(v, j);
    }
  }

  // ---------------------------------------------------------------- framing

  ghost predicate NoControl(s: string) {
    forall i :: 0 <= i < |s| ==> s[i] as int >= 0x20 && s[i] != '<' && s[i] != '>' && s[i] != '&'
  }

  lemma {:induction false} EscapeNoControl(s: string)
    ensures NoControl(Escape(s))
  {
    if s != "" {
      EscapeNoControl(s[1..]);
      assert NoControl(EscapeChar(s[0]));
    }
  }

  /** A printed value is one line: raw control characters never appear, so a line break cannot split it. Nor do
      characters that mean something in HTML. */
  lemma {:induction false} PrintNoControl(v: Json)
    ensures NoControl(Print(v))
    decreases v, 0
  {
    match v
    case Null =>
    case Bool(_) =>
    case Num(n) => assert forall i :: 0 <= i < |Digits(n)| ==> IsDigit(Digits(n)[i]);
    case Str(s) => EscapeNoControl(s);
    case Arr(items) => ItemsNoControl(items);
    case Obj(fields) => FieldsNoControl(fields);
  }

  lemma {:induction false} ItemsNoControl(items: Items)
    ensures NoControl(PrintItems(items))
    decreases items, 1
  {
    if items.Item? {
      PrintNoControl(items.head);
      ItemsNoControl(items.tail);
    }
  }

  lemma {:induction false} FieldsNoControl(fields: Fields)
    ensures NoControl(PrintFields(fields))
    decreases fields, 1
  {
    if fields.Field? {
      EscapeNoControl(fields.key);
      PrintNoControl(fields.value);
      FieldsNoControl(fields.rest);
    }
  }
}
