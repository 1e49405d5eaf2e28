/** JSON documents as values: the encoder Python's `json.dumps(v,
    ensure_ascii=False)` applies on the server, a decoder in the manner of
    JavaScript's `JSON.parse` for the client, the round trip between the two,
    and the JavaScript conversions (truthiness, `String(v)`, property lookup)
    the client applies to decoded values. */
module Json {
  import opened Wrappers
  import opened Text

  /** A JSON value. Numbers are integers; object members keep their textual
      order, duplicates included. */
  datatype Json =
    | JNull
    | JBool(b: bool)
    | JInt(n: int)
    | JStr(s: string)
    | JArr(items: seq<Json>)
    | JObj(members: seq<Member>)

  datatype Member = Member(key: string, value: Json)

  // ---------------------------------------------------------------------------
  // Encoding, as Python's json.dumps with ensure_ascii=False and the default
  // separators ", " and ": ".

  /** Lower-case hexadecimal digit. */
  function HexDigit(d: nat): (c: char)
    requires d < 16
  {
    "0123456789abcdef"[d]
  }

  /** The escape json.dumps writes for one character of a string: the two-letter
      escapes for quote, backslash, BS, FF, LF, CR and TAB, `\u00XX` for the
      other control characters, the character itself otherwise. */
  function EscapeChar(c: char): (r: string)
    ensures r != [] && '\n' !in r
    ensures r[0] == '\\' || (c == r[0] && |r| == 1 && c != '"' && c >= ' ')
  {
    if c == '"' then "\\\""
    else if c == '\\' then "\\\\"
    else if c == '\n' then "\\n"
    else if c == '\r' then "\\r"
    else if c == '\t' then "\\t"
    else if c == '\U{0008}' then "\\b"
    else if c == '\U{000C}' then "\\f"
    else if c < ' ' then "\\u00" + [HexDigit(c as int / 16), HexDigit(c as int % 16)]
    else [c]
  }

  function EscapeBody(s: string): (r: string)
    ensures '\n' !in r
  {
    if s == [] then "" else EscapeChar(s[0]) + EscapeBody(s[1..])
  }

  /** A string literal as json.dumps writes it. */
  function Quote(s: string): string {
    "\"" + EscapeBody(s) + "\""
  }

  function Dumps(j: Json): string
    decreases j, 1
  {
    match j
    case JNull => "null"
    case JBool(b) => if b then "true" else "false"
    case JInt(n) => IntToString(n)
    case JStr(s) => Quote(s)
    case JArr(items) => "[" + DumpsItems(items) + "]"
    case JObj(ms) => "{" + DumpsMembers(ms) + "}"
  }

  function DumpsItems(items: seq<Json>): string
    decreases items, 0
  {
    if items == [] then ""
    else if |items| == 1 then Dumps(items[0])
    else Dumps(items[0]) + ", " + DumpsItems(items[1..])
  }

  function DumpsMembers(ms: seq<Member>): string
    decreases ms, 0
  {
    if ms == [] then ""
    else if |ms| == 1 then Quote(ms[0].key) + ": " + Dumps(ms[0].value)
    else Quote(ms[0].key) + ": " + Dumps(ms[0].value) + ", " + DumpsMembers(ms[1..])
  }

  /** json.dumps never writes a line feed: every one inside a string is escaped. */
  lemma {:induction false} DumpsNoNewline(j: Json)
    ensures '\n' !in Dumps(j)
    decreases j, 1
  {
    match j
    case JNull =>
    case JBool(b) =>
    case JInt(n) =>
    case JStr(s) =>
    case JArr(items) => ItemsNoNewline(items);
    case JObj(ms) => MembersNoNewline(ms);
  }

  lemma {:induction false} ItemsNoNewline(items: seq<Json>)
    ensures '\n' !in DumpsItems(items)
    decreases items, 0
  {
    if items != [] {
      DumpsNoNewline(items[0]);
      if |items| > 1 { ItemsNoNewline(items[1..]); }
    }
  }

  lemma {:induction false} MembersNoNewline(ms: seq<Member>)
    ensures '\n' !in DumpsMembers(ms)
    decreases ms, 0
  {
    if ms != [] {
      DumpsNoNewline(ms[0].value);
      if |ms| > 1 { MembersNoNewline(ms[1..]); }
    }
  }

  // ---------------------------------------------------------------------------
  // Decoding, in the manner of JSON.parse.

  predicate IsJsonSpace(c: char) {
    c == ' ' || c == '\t' || c == '\n' || c == '\r'
  }

  function SkipSpace(s: string): (r: string)
    ensures |r| <= |s| && r == s[|s| - |r|..]
    ensures r != [] ==> !IsJsonSpace(r[0])
  {
    if s != [] && IsJsonSpace(s[0]) then SkipSpace(s[1..]) else s
  }

  function HexValue(c: char): (r: Option<nat>)
    ensures r.Some? ==> r.value < 16
  {
    if '0' <= c <= '9' then Some(c as int - '0' as int)
    else if 'a' <= c <= 'f' then Some(c as int - 'a' as int + 10)
    else if 'A' <= c <= 'F' then Some(c as int - 'A' as int + 10)
    else None
  }

  /** The value of four hexadecimal digits at the front of `s`. */
  function Hex4(s: string): (r: Option<nat>)
    ensures r.Some? ==> |s| >= 4 && r.value < 0x10000
  {
    if |s| < 4 then None
    else match (HexValue(s[0]), HexValue(s[1]), HexValue(s[2]), HexValue(s[3]))
      case (Some(a), Some(b), Some(c), Some(d)) => Some(((a * 16 + b) * 16 + c) * 16 + d)
      case _ => None
  }

  /** The character an escape sequence stands for (`s` follows the backslash)
      and the text after it. A surrogate pair `\uD8xx\uDCxx` gives one
      character; a lone surrogate is refused. */
  function ParseEscape(s: string): (r: Option<(char, string)>)
    ensures r.Some? ==> |r.value.1| < |s|
  {
    if s == [] then None
    else if s[0] == '"' then Some(('"', s[1..]))
    else if s[0] == '\\' then Some(('\\', s[1..]))
    else if s[0] == '/' then Some(('/', s[1..]))
    else if s[0] == 'b' then Some(('\U{0008}', s[1..]))
    else if s[0] == 'f' then Some(('\U{000C}', s[1..]))
    else if s[0] == 'n' then Some(('\n', s[1..]))
    else if s[0] == 'r' then Some(('\r', s[1..]))
    else if s[0] == 't' then Some(('\t', s[1..]))
    else if s[0] == 'u' then
      match Hex4(s[1..])
      case None => None
      case Some(v) =>
        if v < 0xD800 || 0xE000 <= v then Some((v as char, s[5..]))
        else if 0xDC00 <= v then None
        else if |s| >= 7 && s[5] == '\\' && s[6] == 'u' then
          match Hex4(s[7..])
          case Some(w) =>
            if 0xDC00 <= w < 0xE000
            then Some(((0x10000 + (v - 0xD800) * 0x400 + (w - 0xDC00)) as char, s[11..]))
            else None
          case None => None
        else None
    else None
  }

  /** The body of a string literal up to its closing quote (`s` follows the
      opening quote), and the text after the closing quote. Raw control
      characters are refused, as JSON requires. */
  function ParseString(s: string): (r: Option<(string, string)>)
    ensures r.Some? ==> |r.value.1| < |s|
    decreases |s|
  {
    if s == [] then None
    else if s[0] == '"' then Some(([], s[1..]))
    else if s[0] == '\\' then
      match ParseEscape(s[1..])
      case None => None
      case Some((c, rest)) =>
        match ParseString(rest)
        case None => None
        case Some((cs, after)) => Some(([c] + cs, after))
    else if s[0] < ' ' then None
    else
      match ParseString(s[1..])
      case None => None
      case Some((cs, after)) => Some(([s[0]] + cs, after))
  }

  /** The number of decimal digits at the front of `s`. */
  function DigitRun(s: string): (r: nat)
    ensures r <= |s|
    ensures forall k :: 0 <= k < r ==> IsDigit(s[k])
    ensures r < |s| ==> !IsDigit(s[r])
  {
    if s != [] && IsDigit(s[0]) then 1 + DigitRun(s[1..]) else 0
  }

  /** An unsigned integer literal (no leading zeros) at the front of `s`. A
      fraction or an exponent is refused: the model has integers only. */
  function ParseNat(s: string): (r: Option<(nat, string)>)
    ensures r.Some? ==> |r.value.1| < |s|
  {
    var n := DigitRun(s);
    if n == 0 || (s[0] == '0' && n > 1) then None
    else if n < |s| && (s[n] == '.' || s[n] == 'e' || s[n] == 'E') then None
    else Some((DecimalValue(s[..n]), s[n..]))
  }

  /** A value, after any white space in front of it. */
  function ParseValue(s: string): (r: Option<(Json, string)>)
    ensures r.Some? ==> |r.value.1| < |s|
    decreases |s|, 1
  {
    ParseToken(SkipSpace(s))
  }

  /** A value starting at the first character of `t`. */
  function ParseToken(t: string): (r: Option<(Json, string)>)
    ensures r.Some? ==> |r.value.1| < |t|
    decreases |t|, 0
  {
    if t == [] then None
    else
      var c := t[0];
      if c == 'n' then (if StartsWith(t, "null") then Some((JNull, t[4..])) else None)
      else if c == 't' then (if StartsWith(t, "true") then Some((JBool(true), t[4..])) else None)
      else if c == 'f' then (if StartsWith(t, "false") then Some((JBool(false), t[5..])) else None)
      else if c == '"' then
        match ParseString(t[1..])
        case None => None
        case Some((str, rest)) => Some((JStr(str), rest))
      else if c == '-' then
        match ParseNat(t[1..])
        case None => None
        case Some((n, rest)) => Some((JInt(-(n as int)), rest))
      else if IsDigit(c) then
        match ParseNat(t)
        case None => None
        case Some((n, rest)) => Some((JInt(n), rest))
      else if c == '[' then ParseArray(t[1..])
      else if c == '{' then ParseObject(t[1..])
      else None
  }

  /** An array after its opening bracket. */
  function ParseArray(s: string): (r: Option<(Json, string)>)
    ensures r.Some? ==> |r.value.1| < |s|
    decreases |s|, 4
  {
    var t := SkipSpace(s);
    if t != [] && t[0] == ']' then Some((JArr([]), t[1..]))
    else
      match ParseElements(s)
      case None => None
      case Some((items, rest)) => Some((JArr(items), rest))
  }

  /** One or more comma-separated values and the closing bracket. */
  function ParseElements(s: string): (r: Option<(seq<Json>, string)>)
    ensures r.Some? ==> |r.value.1| < |s|
    decreases |s|, 3
  {
    match ParseValue(s)
    case None => None
    case Some((v, r1)) => AfterElement(v, r1)
  }

  /** What may follow a value inside an array: the closing bracket, or a comma
      and more values. */
  function AfterElement(v: Json, r1: string): (r: Option<(seq<Json>, string)>)
    ensures r.Some? ==> |r.value.1| < |r1|
    decreases |r1|, 2
  {
    var t := SkipSpace(r1);
    if t == [] then None
    else if t[0] == ']' then Some(([v], t[1..]))
    else if t[0] == ',' then
      match ParseElements(t[1..])
      case None => None
      case Some((vs, r2)) => Some(([v] + vs, r2))
    else None
  }

  /** An object after its opening brace. */
  function ParseObject(s: string): (r: Option<(Json, string)>)
    ensures r.Some? ==> |r.value.1| < |s|
    decreases |s|, 4
  {
    var t := SkipSpace(s);
    if t != [] && t[0] == '}' then Some((JObj([]), t[1..]))
    else
      match ParseMembers(s)
      case None => None
      case Some((ms, rest)) => Some((JObj(ms), rest))
  }

  /** One or more comma-separated `"key": value` members and the closing brace. */
  function ParseMembers(s: string): (r: Option<(seq<Member>, string)>)
    ensures r.Some? ==> |r.value.1| < |s|
    decreases |s|, 3
  {
    var t := SkipSpace(s);
    if t == [] || t[0] != '"' then None
    else
      match ParseString(t[1..])
      case None => None
      case Some((key, r1)) => AfterKey(key, r1)
  }

  /** What follows a member's key: a colon and the member's value. */
  function AfterKey(key: string, r1: string): (r: Option<(seq<Member>, string)>)
    ensures r.Some? ==> |r.value.1| < |r1|
    decreases |r1|, 2
  {
    var u := SkipSpace(r1);
    if u == [] || u[0] != ':' then None
    else
      match ParseValue(u[1..])
      case None => None
      case Some((v, r2)) => AfterMember(Member(key, v), r2)
  }

  /** What may follow a member: the closing brace, or a comma and more members. */
  function AfterMember(m: Member, r2: string): (r: Option<(seq<Member>, string)>)
    ensures r.Some? ==> |r.value.1| < |r2|
    decreases |r2|, 2
  {
    var w := SkipSpace(r2);
    if w == [] then None
    else if w[0] == '}' then Some(([m], w[1..]))
    else if w[0] == ',' then
      match ParseMembers(w[1..])
      case None => None
      case Some((ms, r3)) => Some(([m] + ms, r3))
    else None
  }

  /** A whole document: one value, surrounded by nothing but white space. */
  function Parse(s: string): Option<Json> {
    match ParseValue(s)
    case Some((j, rest)) => if SkipSpace(rest) == [] then Some(j) else None
    case None => None
  }

  // ---------------------------------------------------------------------------
  // Round trip: what json.dumps writes, JSON.parse reads back.

  /** Text that may follow a value without being read as part of it. */
  predicate Delimits(rest: string) {
    rest == [] || rest[0] == ',' || rest[0] == ']' || rest[0] == '}' || IsJsonSpace(rest[0])
  }

  lemma {:induction false} EscapeRoundTrip(s: string, rest: string)
    ensures ParseString(EscapeBody(s) + "\"" + rest) == Some((s, rest))
    decreases |s|
  {
    if s == [] {
      assert EscapeBody(s) + "\"" + rest == "\"" + rest;
      assert ("\"" + rest)[1..] == rest;
    } else {
      var tail := EscapeBody(s[1..]) + "\"" + rest;
      EscapeRoundTrip(s[1..], rest);
      BodyCons(s, rest);
      EscapeStep(s[0], tail, s[1..], rest);
    }
  }

  lemma BodyCons(s: string, rest: string)
    requires s != []
    ensures EscapeBody(s) + "\"" + rest == EscapeChar(s[0]) + (EscapeBody(s[1..]) + "\"" + rest)
    ensures [s[0]] + s[1..] == s
  {
    var e, b := EscapeChar(s[0]), EscapeBody(s[1..]);
    assert EscapeBody(s) == e + b;
    Assoc(e + b, "\"", rest);
    Assoc(e, b, "\"" + rest);
    Assoc(b, "\"", rest);
  }

  /** One escaped character in front of a string body that reads back. */
  lemma EscapeStep(c: char, tail: string, cs: string, rest: string)
    requires ParseString(tail) == Some((cs, rest))
    ensures ParseString(EscapeChar(c) + tail) == Some(([c] + cs, rest))
  {
    var e := EscapeChar(c);
    if e[0] == '\\' {
      EscapeCharParses(c, tail);
      ConsSlice(e, tail);
    } else {
      assert e == [c];
      ConsSlice(e, tail);
    }
  }

  lemma ConsSlice(e: string, tail: string)
    requires e != []
    ensures (e + tail)[0] == e[0] && (e + tail)[1..] == e[1..] + tail
  {
  }

  lemma EscapeCharParses(c: char, tail: string)
    requires EscapeChar(c)[0] == '\\'
    ensures ParseEscape(EscapeChar(c)[1..] + tail) == Some((c, tail))
  {
    if c < ' ' && c != '\n' && c != '\r' && c != '\t' && c != '\U{0008}' && c != '\U{000C}' {
      ControlParses(c, tail);
    } else {
      var s := EscapeChar(c)[1..] + tail;
      assert s[1..] == tail;
    }
  }

  lemma HexDigitValue(d: nat)
    requires d < 16
    ensures HexValue(HexDigit(d)) == Some(d)
  {
  }

  lemma Hex4Low(hi: nat, lo: nat, tail: string)
    requires hi < 2 && lo < 16
    ensures Hex4(['0', '0', HexDigit(hi), HexDigit(lo)] + tail) == Some(hi * 16 + lo)
  {
    HexDigitValue(hi);
    HexDigitValue(lo);
    var s := ['0', '0', HexDigit(hi), HexDigit(lo)] + tail;
    assert s[0] == '0' && s[1] == '0' && s[2] == HexDigit(hi) && s[3] == HexDigit(lo);
  }

  lemma ControlParses(c: char, tail: string)
    requires c < ' ' && c != '\n' && c != '\r' && c != '\t' && c != '\U{0008}' && c != '\U{000C}'
    ensures ParseEscape(EscapeChar(c)[1..] + tail) == Some((c, tail))
  {
    var hi, lo := c as int / 16, c as int % 16;
    var s := EscapeChar(c)[1..] + tail;
    assert EscapeChar(c)[1..] == ['u', '0', '0', HexDigit(hi), HexDigit(lo)];
    assert s[1..] == ['0', '0', HexDigit(hi), HexDigit(lo)] + tail;
    Hex4Low(hi, lo, tail);
    assert s[5..] == tail;
  }

  lemma QuoteRoundTrip(s: string, rest: string)
    ensures ParseToken(Quote(s) + rest) == Some((JStr(s), rest))
  {
    var t := Quote(s) + rest;
    assert t[1..] == EscapeBody(s) + "\"" + rest;
    EscapeRoundTrip(s, rest);
  }

  lemma NatRoundTrip(n: nat, rest: string)
    requires Delimits(rest)
    ensures ParseNat(NatToString(n) + rest) == Some((n, rest))
  {
    var d := NatToString(n);
    var s := d + rest;
    assert forall k :: 0 <= k < |d| ==> s[k] == d[k];
    assert |d| < |s| ==> s[|d|] == rest[0];
    assert DigitRun(s) == |d| by {
      DigitRunPrefix(d, rest);
    }
    assert s[..|d|] == d && s[|d|..] == rest;
    DecimalRoundTrip(n);
  }

  lemma {:induction false} DigitRunPrefix(d: string, rest: string)
    requires forall k :: 0 <= k < |d| ==> IsDigit(d[k])
    requires rest == [] || !IsDigit(rest[0])
    ensures DigitRun(d + rest) == |d|
  {
    if d != [] {
      assert (d + rest)[1..] == d[1..] + rest;
      DigitRunPrefix(d[1..], rest);
    } else {
      assert d + rest == rest;
    }
  }

  /** Decoding what json.dumps wrote gives the value back, whatever delimiter follows. */
  lemma {:induction false} ValueRoundTrip(j: Json, rest: string)
    requires Delimits(rest)
    ensures ParseValue(Dumps(j) + rest) == Some((j, rest))
    decreases j, 2
  {
    var t := Dumps(j) + rest;
    DumpsStart(j);
    assert t[0] == Dumps(j)[0];
    assert SkipSpace(t) == t;
    TokenRoundTrip(j, rest);
  }

  lemma {:induction false} TokenRoundTrip(j: Json, rest: string)
    requires Delimits(rest)
    ensures ParseToken(Dumps(j) + rest) == Some((j, rest))
    decreases j, 1
  {
    match j
    case JNull => LiteralRoundTrip(j, rest);
    case JBool(b) => LiteralRoundTrip(j, rest);
    case JInt(n) => IntRoundTrip(n, rest);
    case JStr(s) => QuoteRoundTrip(s, rest);
    case JArr(items) =>
      var u := DumpsItems(items) + "]" + rest;
      assert Dumps(j) + rest == "[" + u;
      ArrayRoundTrip(items, rest);
      TokenBracket("[" + u, u);
    case JObj(ms) =>
      var u := DumpsMembers(ms) + "}" + rest;
      assert Dumps(j) + rest == "{" + u;
      ObjectRoundTrip(ms, rest);
      TokenBrace("{" + u, u);
  }

  lemma TokenBracket(t: string, u: string)
    requires t == "[" + u
    ensures ParseToken(t) == ParseArray(u)
  {
    assert t[1..] == u;
  }

  lemma TokenBrace(t: string, u: string)
    requires t == "{" + u
    ensures ParseToken(t) == ParseObject(u)
  {
    assert t[1..] == u;
  }

  lemma LiteralRoundTrip(j: Json, rest: string)
    requires j.JNull? || j.JBool?
    ensures ParseToken(Dumps(j) + rest) == Some((j, rest))
  {
    var t := Dumps(j) + rest;
    if j.JNull? {
      assert t[..4] == "null" && t[4..] == rest;
    } else if j.b {
      assert t[..4] == "true" && t[4..] == rest;
    } else {
      assert t[..5] == "false" && t[5..] == rest;
    }
  }

  lemma IntRoundTrip(n: int, rest: string)
    requires Delimits(rest)
    ensures ParseToken(Dumps(JInt(n)) + rest) == Some((JInt(n), rest))
  {
    if n < 0 {
      var m: nat := -n;
      var t := "-" + (NatToString(m) + rest);
      assert Dumps(JInt(n)) + rest == t;
      NatAfterSign(m, rest);
      TokenMinus(t);
    } else {
      NatRoundTrip(n, rest);
      TokenDigit(NatToString(n) + rest);
    }
  }

  lemma NatAfterSign(m: nat, rest: string)
    requires Delimits(rest)
    ensures ParseNat(("-" + (NatToString(m) + rest))[1..]) == Some((m, rest))
  {
    NatRoundTrip(m, rest);
    assert ("-" + (NatToString(m) + rest))[1..] == NatToString(m) + rest;
  }

  lemma TokenMinus(t: string)
    requires t != [] && t[0] == '-'
    ensures ParseToken(t) == match ParseNat(t[1..])
                             case None => None
                             case Some((n, rest)) => Some((JInt(-(n as int)), rest))
  {
  }

  lemma TokenDigit(t: string)
    requires t != [] && IsDigit(t[0])
    ensures ParseToken(t) == match ParseNat(t)
                             case None => None
                             case Some((n, rest)) => Some((JInt(n), rest))
  {
  }

  lemma {:induction false} ArrayRoundTrip(items: seq<Json>, rest: string)
    ensures ParseArray(DumpsItems(items) + "]" + rest) == Some((JArr(items), rest))
    decreases items, 3
  {
    if items == [] {
      assert DumpsItems(items) + "]" + rest == "]" + rest;
    } else {
      ElementsRoundTrip(items, rest);
      var s := DumpsItems(items) + "]" + rest;
      DumpsItemsStart(items);
      assert s[0] == DumpsItems(items)[0];
      assert SkipSpace(s) == s;
    }
  }

  /** A non-empty item list begins with the first item's text, which never
      begins with white space or a closing bracket. */
  lemma DumpsItemsStart(items: seq<Json>)
    requires items != []
    ensures DumpsItems(items) != [] && DumpsItems(items)[0] == Dumps(items[0])[0]
    ensures Dumps(items[0])[0] != ']' && !IsJsonSpace(Dumps(items[0])[0])
  {
    DumpsStart(items[0]);
  }

  lemma DumpsStart(j: Json)
    ensures Dumps(j) != [] && !IsJsonSpace(Dumps(j)[0])
    ensures Dumps(j)[0] != ']' && Dumps(j)[0] != '}'
  {
  }

  /** ParseElements reads one value, then looks at what follows it. */
  lemma ElementsHead(s: string, v: Json, r1: string)
    requires ParseValue(s) == Some((v, r1))
    ensures ParseElements(s) == AfterElement(v, r1)
  {
  }

  /** After the last value: the closing bracket. */
  lemma ElementsLast(v: Json, rest: string)
    ensures AfterElement(v, "]" + rest) == Some(([v], rest))
  {
    Unspaced(']', rest);
  }

  /** After a value followed by a comma: the remaining values. */
  lemma ElementsComma(v: Json, u: string, vs: seq<Json>, rest: string)
    requires ParseElements(u) == Some((vs, rest))
    ensures AfterElement(v, "," + u) == Some(([v] + vs, rest))
  {
    Unspaced(',', u);
  }

  lemma {:induction false} ElementsRoundTrip(items: seq<Json>, rest: string)
    requires items != []
    ensures ParseElements(DumpsItems(items) + "]" + rest) == Some((items, rest))
    decreases items, 2
  {
    var s := DumpsItems(items) + "]" + rest;
    if |items| == 1 {
      OneItemText(items, rest);
      ValueRoundTrip(items[0], "]" + rest);
      ElementsHead(s, items[0], "]" + rest);
      ElementsLast(items[0], rest);
    } else {
      ElementsRoundTrip(items[1..], rest);
      ElementsNext(items, rest, DumpsItems(items[1..]) + "]" + rest);
    }
  }

  /** The step of ElementsRoundTrip for a value followed by more values. */
  lemma {:induction false} ElementsNext(items: seq<Json>, rest: string, tail: string)
    requires |items| > 1
    requires tail == DumpsItems(items[1..]) + "]" + rest
    requires ParseElements(tail) == Some((items[1..], rest))
    ensures ParseElements(DumpsItems(items) + "]" + rest) == Some((items, rest))
    decreases items, 1
  {
    var s := DumpsItems(items) + "]" + rest;
    MoreItemsText(items, rest);
    ValueRoundTrip(items[0], "," + (" " + tail));
    ElementsHead(s, items[0], "," + (" " + tail));
    ElementsSpace(" " + tail, tail);
    ElementsComma(items[0], " " + tail, items[1..], rest);
    SeqCons(items);
  }

  lemma OneItemText(items: seq<Json>, rest: string)
    requires |items| == 1
    ensures DumpsItems(items) + "]" + rest == Dumps(items[0]) + ("]" + rest)
    ensures [items[0]] == items
  {
    assert DumpsItems(items) == Dumps(items[0]);
    Assoc(Dumps(items[0]), "]", rest);
  }

  lemma MoreItemsText(items: seq<Json>, rest: string)
    requires |items| > 1
    ensures DumpsItems(items) + "]" + rest
         == Dumps(items[0]) + ("," + (" " + (DumpsItems(items[1..]) + "]" + rest)))
  {
    var d, t := Dumps(items[0]), DumpsItems(items[1..]);
    assert DumpsItems(items) == d + ", " + t;
    CommaText(d, t, "]" + rest);
    Assoc(d + ", " + t, "]", rest);
    Assoc(t, "]", rest);
  }

  lemma CommaText(d: string, t: string, after: string)
    ensures d + ", " + t + after == d + ("," + (" " + (t + after)))
  {
  }

  /** White space in front of the elements is skipped. */
  lemma ElementsSpace(s: string, t: string)
    requires s == " " + t
    ensures ParseElements(s) == ParseElements(t)
  {
    assert s[1..] == t;
    assert SkipSpace(s) == SkipSpace(t);
  }

  /** White space in front of a value is skipped. */
  lemma ValueSpace(s: string, t: string)
    requires s == " " + t
    ensures ParseValue(s) == ParseValue(t)
  {
    assert s[1..] == t;
    assert SkipSpace(s) == SkipSpace(t);
  }

  /** White space in front of the members is skipped. */
  lemma MembersSpace(s: string, t: string)
    requires s == " " + t
    ensures ParseMembers(s) == ParseMembers(t)
  {
    assert s[1..] == t;
    assert SkipSpace(s) == SkipSpace(t);
  }

  lemma {:induction false} ObjectRoundTrip(ms: seq<Member>, rest: string)
    ensures ParseObject(DumpsMembers(ms) + "}" + rest) == Some((JObj(ms), rest))
    decreases ms, 3
  {
    if ms == [] {
      assert DumpsMembers(ms) + "}" + rest == "}" + rest;
    } else {
      MembersRoundTrip(ms, rest);
      var s := DumpsMembers(ms) + "}" + rest;
      assert s[0] == '"';
      assert SkipSpace(s) == s;
    }
  }

  /** A member's key, colon and value, then whatever follows the value. */
  lemma MemberHead(s: string, key: string, x: string, v: Json, r2: string)
    requires s != [] && s[0] == '"'
    requires ParseString(s[1..]) == Some((key, ":" + x))
    requires ParseValue(x) == Some((v, r2))
    ensures ParseMembers(s) == AfterMember(Member(key, v), r2)
  {
    MemberKey(s, key, ":" + x);
    Unspaced(':', x);
    MemberColon(key, ":" + x, v, r2);
  }

  lemma MemberKey(s: string, key: string, r1: string)
    requires s != [] && s[0] == '"'
    requires ParseString(s[1..]) == Some((key, r1))
    ensures ParseMembers(s) == AfterKey(key, r1)
  {
    assert SkipSpace(s) == s;
  }

  lemma MemberColon(key: string, u: string, v: Json, r2: string)
    requires u != [] && u[0] == ':'
    requires ParseValue(u[1..]) == Some((v, r2))
    ensures AfterKey(key, u) == AfterMember(Member(key, v), r2)
  {
    assert SkipSpace(u) == u;
  }

  /** ParseMembers after the last member: the closing brace. */
  lemma MembersLast(m: Member, rest: string)
    ensures AfterMember(m, "}" + rest) == Some(([m], rest))
  {
    Unspaced('}', rest);
  }

  /** ParseMembers after a member followed by a comma. */
  lemma MembersComma(m: Member, u: string, ms: seq<Member>, rest: string)
    requires ParseMembers(u) == Some((ms, rest))
    ensures AfterMember(m, "," + u) == Some(([m] + ms, rest))
  {
    Unspaced(',', u);
  }

  /** A character that is not white space, followed by `u`: nothing is skipped. */
  lemma Unspaced(c: char, u: string)
    requires !IsJsonSpace(c)
    ensures SkipSpace([c] + u) == [c] + u && ([c] + u)[1..] == u
  {
  }

  lemma {:induction false} MembersRoundTrip(ms: seq<Member>, rest: string)
    requires ms != []
    ensures ParseMembers(DumpsMembers(ms) + "}" + rest) == Some((ms, rest))
    decreases ms, 2
  {
    var m := ms[0];
    var s := DumpsMembers(ms) + "}" + rest;
    if |ms| == 1 {
      OneMemberText(ms, rest);
      MemberRoundTrip(s, m, "}" + rest);
      MembersLast(m, rest);
    } else {
      var tail := DumpsMembers(ms[1..]) + "}" + rest;
      MembersRoundTrip(ms[1..], rest);
      MembersNext(ms, rest, tail);
    }
  }

  /** The step of MembersRoundTrip for a member followed by more members. */
  lemma {:induction false} MembersNext(ms: seq<Member>, rest: string, tail: string)
    requires |ms| > 1
    requires tail == DumpsMembers(ms[1..]) + "}" + rest
    requires ParseMembers(tail) == Some((ms[1..], rest))
    ensures ParseMembers(DumpsMembers(ms) + "}" + rest) == Some((ms, rest))
    decreases ms, 1
  {
    var m := ms[0];
    var s := DumpsMembers(ms) + "}" + rest;
    MoreMembersText(ms, rest);
    MemberRoundTrip(s, m, "," + (" " + tail));
    MembersSpace(" " + tail, tail);
    MembersComma(m, " " + tail, ms[1..], rest);
    SeqCons(ms);
  }

  lemma OneMemberText(ms: seq<Member>, rest: string)
    requires |ms| == 1
    ensures DumpsMembers(ms) + "}" + rest == Quote(ms[0].key) + ": " + Dumps(ms[0].value) + ("}" + rest)
    ensures [ms[0]] == ms
  {
  }

  lemma MoreMembersText(ms: seq<Member>, rest: string)
    requires |ms| > 1
    ensures DumpsMembers(ms) + "}" + rest
         == Quote(ms[0].key) + ": " + Dumps(ms[0].value) + ("," + (" " + (DumpsMembers(ms[1..]) + "}" + rest)))
  {
    var q, d, t := Quote(ms[0].key), Dumps(ms[0].value), DumpsMembers(ms[1..]);
    assert DumpsMembers(ms) == q + ": " + d + ", " + t;
    Reassociate(q, d, t, rest);
  }

  lemma Reassociate(q: string, d: string, t: string, rest: string)
    ensures q + ": " + d + ", " + t + "}" + rest == q + ": " + d + ("," + (" " + (t + "}" + rest)))
  {
  }

  lemma SeqCons<T>(xs: seq<T>)
    requires xs != []
    ensures [xs[0]] + xs[1..] == xs
  {
  }

  /** One member as json.dumps writes it, followed by a delimiter. */
  lemma {:induction false} MemberRoundTrip(s: string, m: Member, after: string)
    requires Delimits(after)
    requires s == Quote(m.key) + ": " + Dumps(m.value) + after
    ensures ParseMembers(s) == AfterMember(m, after)
    decreases m, 3
  {
    var x := " " + (Dumps(m.value) + after);
    ColonText(Quote(m.key), Dumps(m.value), after);
    KeyRoundTrip(s, m.key, ":" + x);
    ValueRoundTrip(m.value, after);
    ValueSpace(x, Dumps(m.value) + after);
    MemberHead(s, m.key, x, m.value, after);
  }

  lemma ColonText(q: string, d: string, after: string)
    ensures q + ": " + d + after == q + (":" + (" " + (d + after)))
  {
  }

  /** The key of a member reads back from its quoted form. */
  lemma KeyRoundTrip(s: string, key: string, after: string)
    requires s == Quote(key) + after
    ensures s != [] && s[0] == '"' && ParseString(s[1..]) == Some((key, after))
  {
    assert s[1..] == EscapeBody(key) + "\"" + after;
    EscapeRoundTrip(key, after);
  }

  /** JSON.parse reads back the whole document json.dumps wrote. */
  lemma ParseDumps(j: Json)
    ensures Parse(Dumps(j)) == Some(j)
  {
    ValueRoundTrip(j, "");
    assert Dumps(j) + "" == Dumps(j);
  }

  // ---------------------------------------------------------------------------
  // JavaScript's view of a decoded value.

  /** JavaScript truthiness: `null`, `false`, `0` and `""` are falsy; arrays
      and objects, even empty ones, are truthy. */
  predicate Truthy(j: Json) {
    match j
    case JNull => false
    case JBool(b) => b
    case JInt(n) => n != 0
    case JStr(s) => s != ""
    case JArr(_) => true
    case JObj(_) => true
  }

  /** `v.key` on a decoded value: the last member named `key` of an object
      (JSON.parse keeps the last of duplicate keys), and `undefined` (None)
      for every other kind of value. */
  function Get(j: Json, key: string): (r: Option<Json>)
    ensures r.Some? ==> j.JObj? && exists k :: 0 <= k < |j.members| && j.members[k] == Member(key, r.value)
    ensures r.None? && j.JObj? ==> forall k :: 0 <= k < |j.members| ==> j.members[k].key != key
  {
    match j
    case JObj(ms) => LastMember(ms, key)
    case _ => None
  }

  function LastMember(ms: seq<Member>, key: string): (r: Option<Json>)
    ensures r.Some? ==> exists k :: 0 <= k < |ms| && ms[k] == Member(key, r.value) &&
                                    forall k' :: k < k' < |ms| ==> ms[k'].key != key
    ensures r.None? ==> forall k :: 0 <= k < |ms| ==> ms[k].key != key
  {
    if ms == [] then None
    else if ms[|ms| - 1].key == key then Some(ms[|ms| - 1].value)
    else LastMember(ms[..|ms| - 1], key)
  }

  /** The value `Get` finds is the one of the last member with the key. */
  lemma GetAt(j: Json, key: string, k: nat)
    requires j.JObj? && k < |j.members| && j.members[k].key == key
    requires forall k' :: k < k' < |j.members| ==> j.members[k'].key != key
    ensures Get(j, key) == Some(j.members[k].value)
  {
  }

  /** An object none of whose members has the key has no such field. */
  lemma GetAbsent(j: Json, key: string)
    requires j.JObj? && forall k :: 0 <= k < |j.members| ==> j.members[k].key != key
    ensures Get(j, key) == None
  {
  }

  /** `String(v)`, as `text += v` applies it: arrays join their elements with
      commas (null elements as empty text), objects become "[object Object]". */
  function ToJsString(j: Json): string
    decreases j, 1
  {
    match j
    case JNull => "null"
    case JBool(b) => if b then "true" else "false"
    case JInt(n) => IntToString(n)
    case JStr(s) => s
    case JArr(items) => JoinItems(items)
    case JObj(_) => "[object Object]"
  }

  function JoinItems(items: seq<Json>): string
    decreases items, 0
  {
    if items == [] then ""
    else
      var first := if items[0].JNull? then "" else ToJsString(items[0]);
      if |items| == 1 then first else first + "," + JoinItems(items[1..])
  }
}
