// JSON text of flat messages (encode and decode of src/protocol/message.js), and what becomes of
// a list of messages sent over a stream.
module JsonText {
  import opened Wrappers
  import opened Text
  import opened Crypto
  import opened Messages

  // The values of flat messages.
  type Flat = v: Value | IsScalar(v) witness Null

  // A property of a flat message, in its place among the others.
  datatype Entry = Entry(name: string, value: Flat)

  const MAX_SAFE_INTEGER := 0x1F_FFFF_FFFF_FFFF

  predicate IsSafe(v: Flat) {
    v.Num? ==> -MAX_SAFE_INTEGER <= v.n <= MAX_SAFE_INTEGER
  }

  predicate AllSafe(entries: seq<Entry>) {
    forall e :: e in entries ==> IsSafe(e.value)
  }

  function PutAll(o: Object, entries: seq<Entry>): Object
    decreases |entries|
  {
    if entries == [] then o else PutAll(o[entries[0].name := entries[0].value], entries[1..])
  }

  // The object with these properties, the last of equal names winning.
  function ObjectOf(entries: seq<Entry>): Object {
    PutAll(map[], entries)
  }

  // ---- JSON.stringify ------------------------------------------------------------------------

  // The escapes of section 7 of RFC 8259.
  function EscapeChar(c: char): string {
    if c == '"' then "\\\""
    else if c == '\\' then "\\\\"
    else if c == 8 as char then "\\b"
    else if c == 9 as char then "\\t"
    else if c == 10 as char then "\\n"
    else if c == 12 as char then "\\f"
    else if c == 13 as char then "\\r"
    else if c < ' ' then "\\u00" + [HexChar(c as int / 16), HexChar(c as int % 16)]
    else [c]
  }

  // The text of a string between its quotes, for a way of escaping characters.
  function Escaped(esc: char -> string, s: string): string {
    if s == "" then "" else esc(s[0]) + Escaped(esc, s[1..])
  }

  function Quoted(esc: char -> string, s: string): string {
    "\"" + Escaped(esc, s) + "\""
  }

  function Integer(n: int): string {
    if n < 0 then "-" + Decimal(-n) else Decimal(n)
  }

  function ValueText(esc: char -> string, v: Flat): string {
    match v
    case Str(s) => Quoted(esc, s)
    case Num(n) => Integer(n)
    case Bool(b) => if b then "true" else "false"
    case Null => "null"
  }

  function Member(esc: char -> string, e: Entry): string {
    Quoted(esc, e.name) + ":" + ValueText(esc, e.value)
  }

  // The members and the closing brace.
  function Members(esc: char -> string, entries: seq<Entry>): string {
    if entries == [] then "}"
    else if |entries| == 1 then Member(esc, entries[0]) + "}"
    else Member(esc, entries[0]) + "," + Members(esc, entries[1..])
  }

  function TextWith(esc: char -> string, entries: seq<Entry>): string {
    "{" + Members(esc, entries)
  }

  // JSON.stringify of a flat object.
  function Stringify(entries: seq<Entry>): string {
    TextWith(EscapeChar, entries)
  }

  // encode: the frame of a message.
  function Encode(entries: seq<Entry>): string {
    Stringify(entries) + "\n"
  }

  // ---- JSON.parse ----------------------------------------------------------------------------------

  datatype Parsed<+T> = Parsed(value: T, rest: string) | SyntaxError

  predicate IsJsonSpace(c: char) {
    c == ' ' || c == '\t' || c == '\n' || c == '\r'
  }

  function SkipSpace(s: string): (r: string)
    ensures |r| <= |s|
    ensures s != "" && !IsJsonSpace(s[0]) ==> r == s
  {
    if s != "" && IsJsonSpace(s[0]) then SkipSpace(s[1..]) else s
  }

  function HexValue(c: char): Option<nat> {
    if '0' <= c <= '9' then Some(c as int - 48)
    else if 'a' <= c <= 'f' then Some(c as int - 87)
    else if 'A' <= c <= 'F' then Some(c as int - 55)
    else None
  }

  // The code of four hexadecimal digits; surrogates are outside the modelled text.
  function ParseHex4(s: string): (r: Parsed<char>)
    ensures r.Parsed? ==> |r.rest| < |s|
  {
    if |s| < 4 then SyntaxError
    else
      match (HexValue(s[0]), HexValue(s[1]), HexValue(s[2]), HexValue(s[3]))
      case (Some(a), Some(b), Some(c), Some(d)) =>
        var code := ((a * 16 + b) * 16 + c) * 16 + d;
        if code < 0xD800 || 0xE000 <= code < 0x10000 then Parsed(code as char, s[4..]) else SyntaxError
      case _ => SyntaxError
  }

  // One character of a string literal, escaped or not.
  function ParseChar(s: string): (r: Parsed<char>)
    ensures r.Parsed? ==> |r.rest| < |s|
  {
    if s == "" || s[0] < ' ' || s[0] == '"' then SyntaxError
    else if s[0] != '\\' then Parsed(s[0], s[1..])
    else if |s| == 1 then SyntaxError
    else
      match s[1]
      case '"' => Parsed('"', s[2..])
      case '\\' => Parsed('\\', s[2..])
      case '/' => Parsed('/', s[2..])
      case 'b' => Parsed(8 as char, s[2..])
      case 'f' => Parsed(12 as char, s[2..])
      case 'n' => Parsed(10 as char, s[2..])
      case 'r' => Parsed(13 as char, s[2..])
      case 't' => Parsed(9 as char, s[2..])
      case 'u' => ParseHex4(s[2..])
      case _ => SyntaxError
  }

  // The rest of a string literal after its opening quote.
  function ParseChars(s: string): (r: Parsed<string>)
    ensures r.Parsed? ==> |r.rest| < |s|
    decreases |s|
  {
    if s != "" && s[0] == '"' then Parsed("", s[1..])
    else
      match ParseChar(s)
      case SyntaxError => SyntaxError
      case Parsed(c, rest) =>
        match ParseChars(rest)
        case SyntaxError => SyntaxError
        case Parsed(cs, rest') => Parsed([c] + cs, rest')
  }

  function ParseString(s: string): (r: Parsed<string>)
    ensures r.Parsed? ==> |r.rest| < |s|
  {
    if s != "" && s[0] == '"' then ParseChars(s[1..]) else SyntaxError
  }

  // The digits a text starts with.
  function DigitRun(s: string): (r: nat)
    ensures r <= |s| && forall k :: 0 <= k < r ==> IsDigit(s[k])
    ensures r < |s| ==> !IsDigit(s[r])
  {
    if s != "" && IsDigit(s[0]) then 1 + DigitRun(s[1..]) else 0
  }

  // A numeral without leading zeros. Fractions, exponents and unsafe integers are not modelled.
  function ParseNatural(s: string): (r: Parsed<nat>)
    ensures r.Parsed? ==> |r.rest| < |s|
  {
    var k := DigitRun(s);
    if k == 0 || (s[0] == '0' && k > 1) || DecimalValue(s[..k]) > MAX_SAFE_INTEGER then SyntaxError
    else Parsed(DecimalValue(s[..k]), s[k..])
  }

  function ParseValue(s: string): (r: Parsed<Flat>)
    ensures r.Parsed? ==> |r.rest| < |s|
  {
    if s != "" && s[0] == '"' then
      match ParseString(s)
      case SyntaxError => SyntaxError
      case Parsed(t, rest) => Parsed(Str(t), rest)
    else if s != "" && s[0] == '-' then
      match ParseNatural(s[1..])
      case SyntaxError => SyntaxError
      case Parsed(n, rest) => var i: int := n; Parsed(Num(-i), rest)
    else if "true" <= s then Parsed(Bool(true), s[4..])
    else if "false" <= s then Parsed(Bool(false), s[5..])
    else if "null" <= s then Parsed(Null, s[4..])
    else
      match ParseNatural(s)
      case SyntaxError => SyntaxError
      case Parsed(n, rest) => Parsed(Num(n), rest)
  }

  function ParseMember(s: string): (r: Parsed<Entry>)
    ensures r.Parsed? ==> |r.rest| < |s|
  {
    match ParseString(SkipSpace(s))
    case SyntaxError => SyntaxError
    case Parsed(name, rest) =>
      var colon := SkipSpace(rest);
      if colon == "" || colon[0] != ':' then SyntaxError
      else
        match ParseValue(SkipSpace(colon[1..]))
        case SyntaxError => SyntaxError
        case Parsed(v, rest') => Parsed(Entry(name, v), SkipSpace(rest'))
  }

  // One or more members up to the closing brace.
  function ParseMembers(s: string): Parsed<seq<Entry>>
    decreases |s|
  {
    match ParseMember(s)
    case SyntaxError => SyntaxError
    case Parsed(e, rest) =>
      if rest != "" && rest[0] == '}' then Parsed([e], rest[1..])
      else if rest != "" && rest[0] == ',' then
        match ParseMembers(rest[1..])
        case SyntaxError => SyntaxError
        case Parsed(es, rest') => Parsed([e] + es, rest')
      else SyntaxError
  }

  // JSON.parse of a line that holds a flat object: its properties in order.
  function Parse(line: string): Option<seq<Entry>> {
    var s := SkipSpace(line);
    if s == "" || s[0] != '{' then None
    else
      var body := SkipSpace(s[1..]);
      var r := if body != "" && body[0] == '}' then Parsed([], body[1..]) else ParseMembers(body);
      if r.Parsed? && SkipSpace(r.rest) == "" then Some(r.value) else None
  }

  // decode
  function Decode(line: string): Option<Object> {
    match Parse(line)
    case None => None
    case Some(entries) => Some(ObjectOf(entries))
  }

  // ---- Round trip -------------------------------------------------------------------------------------

  lemma ParseEscaped(c: char, rest: string)
    ensures ParseChar(EscapeChar(c) + rest) == Parsed(c, rest)
    ensures EscapeChar(c) != "" && EscapeChar(c)[0] != '"'
  {
    var s := EscapeChar(c) + rest;
    if |EscapeChar(c)| == 2 {
      assert s[2..] == rest;
    } else if |EscapeChar(c)| == 6 {
      assert s[2..][4..] == rest;
    } else {
      assert s[1..] == rest;
    }
  }

  lemma {:induction false} ParseCharsOfEscaped(t: string, rest: string)
    ensures ParseChars(Escaped(EscapeChar, t) + "\"" + rest) == Parsed(t, rest)
  {
    var s := Escaped(EscapeChar, t) + "\"" + rest;
    if t == "" {
      assert s[1..] == rest;
    } else {
      var s' := Escaped(EscapeChar, t[1..]) + "\"" + rest;
      assert s == EscapeChar(t[0]) + s';
      ParseEscaped(t[0], s');
      ParseCharsOfEscaped(t[1..], rest);
      assert t == [t[0]] + t[1..];
    }
  }

  lemma ParseQuoted(t: string, rest: string)
    ensures ParseString(Quoted(EscapeChar, t) + rest) == Parsed(t, rest)
  {
    var s := Quoted(EscapeChar, t) + rest;
    assert s[1..] == Escaped(EscapeChar, t) + "\"" + rest;
    ParseCharsOfEscaped(t, rest);
  }

  lemma {:induction false} DecimalFirst(n: nat)
    ensures Decimal(n)[0] == '0' <==> n == 0
    ensures n < 10 ==> |Decimal(n)| == 1
  {
    if n >= 10 {
      DecimalFirst(n / 10);
    }
  }

  lemma {:induction false} DigitRunOf(digits: string, rest: string)
    requires forall k :: 0 <= k < |digits| ==> IsDigit(digits[k])
    requires rest == "" || !IsDigit(rest[0])
    ensures DigitRun(digits + rest) == |digits|
  {
    if digits == "" {
      assert digits + rest == rest;
    } else {
      assert (digits + rest)[1..] == digits[1..] + rest;
      DigitRunOf(digits[1..], rest);
    }
  }

  lemma ParseDecimal(n: nat, rest: string)
    requires n <= MAX_SAFE_INTEGER && (rest == "" || !IsDigit(rest[0]))
    ensures ParseNatural(Decimal(n) + rest) == Parsed(n, rest)
  {
    var d := Decimal(n);
    DigitRunOf(d, rest);
    DecimalFirst(n);
    DecimalRoundTrip(n);
    assert (d + rest)[..|d|] == d && (d + rest)[|d|..] == rest;
  }

  // Where a value ends: before a comma or a closing brace.
  predicate EndsValue(rest: string) {
    rest != "" && (rest[0] == ',' || rest[0] == '}')
  }

  // A text that starts like a number is read as one.
  lemma NumberFirst(s: string)
    requires s != ""
    ensures IsDigit(s[0]) && ParseNatural(s).Parsed? ==>
              ParseValue(s) == Parsed(Num(ParseNatural(s).value), ParseNatural(s).rest)
    ensures s[0] == '-' && ParseNatural(s[1..]).Parsed? ==>
              ParseValue(s) == Parsed(Num(0 - ParseNatural(s[1..]).value), ParseNatural(s[1..]).rest)
  {
    hide ParseNatural, ParseString;
  }

  lemma ParseInteger(n: int, rest: string)
    requires -MAX_SAFE_INTEGER <= n <= MAX_SAFE_INTEGER && EndsValue(rest)
    ensures ParseValue(Integer(n) + rest) == Parsed(Num(n), rest) && !IsJsonSpace(Integer(n)[0])
  {
    hide ParseNatural, ParseString, ParseValue, Decimal;
    var s := Integer(n) + rest;
    NumberFirst(s);
    if n < 0 {
      ParseDecimal(-n, rest);
      assert s[1..] == Decimal(-n) + rest;
    } else {
      ParseDecimal(n, rest);
      assert IsDigit(s[0]);
    }
  }

  lemma ParseWord(v: Flat, rest: string)
    requires v.Bool? || v.Null?
    ensures ParseValue(ValueText(EscapeChar, v) + rest) == Parsed(v, rest)
  {
    hide ParseNatural, ParseString;
  }

  lemma ParseValueText(v: Flat, rest: string)
    requires IsSafe(v) && EndsValue(rest)
    ensures ParseValue(ValueText(EscapeChar, v) + rest) == Parsed(v, rest)
    ensures !IsJsonSpace(ValueText(EscapeChar, v)[0])
  {
    match v
    case Str(t) =>
      hide ParseNatural, ParseString, Escaped;
      ParseQuoted(t, rest);
    case Num(n) =>
      hide ParseValue;
      ParseInteger(n, rest);
    case Bool(_) =>
      hide ParseValue;
      ParseWord(v, rest);
    case Null =>
      hide ParseValue;
      ParseWord(v, rest);
  }

  lemma ParseMemberText(e: Entry, rest: string)
    requires IsSafe(e.value) && EndsValue(rest)
    ensures ParseMember(Member(EscapeChar, e) + rest) == Parsed(e, rest)
  {
    hide ParseString, Escaped, ParseValue, ValueText;
    var tail := ValueText(EscapeChar, e.value) + rest;
    var s := Quoted(EscapeChar, e.name) + (":" + tail);
    assert Member(EscapeChar, e) + rest == s;
    ParseQuoted(e.name, ":" + tail);
    ParseValueText(e.value, rest);
    assert (":" + tail)[1..] == tail;
  }

  lemma {:induction false} ParseMembersText(entries: seq<Entry>, rest: string)
    requires AllSafe(entries) && entries != []
    ensures ParseMembers(Members(EscapeChar, entries) + rest) == Parsed(entries, rest)
  {
    hide ParseMember, Member;
    var e := entries[0];
    if |entries| == 1 {
      ParseMemberText(e, "}" + rest);
      assert Members(EscapeChar, entries) + rest == Member(EscapeChar, e) + ("}" + rest);
      assert entries == [e];
    } else {
      var more := Members(EscapeChar, entries[1..]) + rest;
      ParseMemberText(e, "," + more);
      assert Members(EscapeChar, entries) + rest == Member(EscapeChar, e) + ("," + more);
      ParseMembersText(entries[1..], rest);
      assert ("," + more)[1..] == more;
      assert entries == [e] + entries[1..];
    }
  }

  // Parsing what was stringified gives the same properties in the same order.
  lemma ParseStringify(entries: seq<Entry>)
    requires AllSafe(entries)
    ensures Parse(Stringify(entries)) == Some(entries)
  {
    hide ParseMembers, Escaped, ValueText;
    var s := Stringify(entries);
    var body := Members(EscapeChar, entries);
    assert s[1..] == body;
    if entries != [] {
      ParseMembersText(entries, "");
      assert body + "" == body;
      assert body[0] == '"';
    }
  }

  // A parser that undoes the writing of flat objects, as JSON.parse does.
  ghost predicate ParsesFlat(parse: string -> Option<Json>) {
    forall entries: seq<Entry> :: AllSafe(entries) ==> parse(Stringify(entries)) == Some(Obj(ObjectOf(entries)))
  }

  lemma DecodeParsesFlat()
    ensures ParsesFlat(line => if Decode(line).Some? then Some(Obj(Decode(line).value)) else None)
  {
    hide Parse, Stringify, ObjectOf;
    forall entries: seq<Entry> | AllSafe(entries)
      ensures Decode(Stringify(entries)) == Some(ObjectOf(entries))
    {
      ParseStringify(entries);
    }
  }

  // ---- The text, character by character ------------------------------------------------------------

  // Section 7 of RFC 8259: what must be escaped is, in the shortest way, and nothing else.
  lemma EscapesExactly(c: char)
    ensures EscapeChar(c) == [c] <==> c as int >= 0x20 && c != '"' && c != '\\'
    ensures EscapeChar('"') == "\\\"" && EscapeChar('\\') == "\\\\"
    ensures EscapeChar(0x08 as char) == "\\b" && EscapeChar(0x09 as char) == "\\t" && EscapeChar(0x0A as char) == "\\n"
    ensures EscapeChar(0x0C as char) == "\\f" && EscapeChar(0x0D as char) == "\\r"
    ensures c as int < 0x20 && c as int !in {0x08, 0x09, 0x0A, 0x0C, 0x0D} ==>
      EscapeChar(c) == "\\u00" + [HEX_DIGITS[c as int / 16], HEX_DIGITS[c as int % 16]]
  {
    if c as int < 0x20 {
      HexDigit(c as int / 16);
      HexDigit(c as int % 16);
    }
  }

  lemma HexDigit(v: nat)
    requires v < 16
    ensures HexChar(v) == HEX_DIGITS[v]
  {
  }

  // A text is escaped character by character.
  lemma {:induction false} EscapedConcat(s: string, t: string)
    ensures Escaped(EscapeChar, s + t) == Escaped(EscapeChar, s) + Escaped(EscapeChar, t)
  {
    hide EscapeChar;
    if s == "" {
      assert s + t == t;
    } else {
      assert (s + t)[1..] == s[1..] + t;
      EscapedConcat(s[1..], t);
    }
  }

  predicate NeedsNoEscape(s: string) {
    forall k :: 0 <= k < |s| ==> s[k] as int >= 0x20 && s[k] != '"' && s[k] != '\\'
  }

  lemma {:induction false} EscapedExactly(s: string)
    ensures Escaped(EscapeChar, s) == s <==> NeedsNoEscape(s)
    ensures |Escaped(EscapeChar, s)| >= |s|
  {
    if s != "" {
      EscapedExactly(s[1..]);
      EscapesExactly(s[0]);
      hide EscapeChar;
      var head, tail := EscapeChar(s[0]), Escaped(EscapeChar, s[1..]);
      assert s == [s[0]] + s[1..];
      assert |head| >= 1;
      if head == [s[0]] {
        assert (head + tail)[1..] == tail;
      }
      if head + tail == s {
        assert |head| == 1 && head[0] == s[0];
      }
    }
  }

  // The literal of a text is the text between quotes exactly if none of its characters needs an escape.
  lemma QuotedExactly(s: string)
    ensures Quoted(EscapeChar, s) == "\"" + s + "\"" <==> NeedsNoEscape(s)
    ensures Quoted(EscapeChar, s) == "\"" + Escaped(EscapeChar, s) + "\""
  {
    EscapedExactly(s);
    hide Escaped, NeedsNoEscape;
    var e := Escaped(EscapeChar, s);
    assert ("\"" + e + "\"")[1..|e| + 1] == e && ("\"" + s + "\"")[1..|s| + 1] == s;
  }

  // The bytes that escaping adds: one for the quote, the backslash and the five controls with a letter, five for
  // any other control.
  function EscapeCost(s: string): nat {
    if s == "" then 0
    else
      var n := s[0] as int;
      (if s[0] == '"' || s[0] == '\\' || n in {0x08, 0x09, 0x0A, 0x0C, 0x0D} then 1 else if n < 0x20 then 5 else 0)
      + EscapeCost(s[1..])
  }

  lemma {:induction false} EscapedBytes(s: string)
    ensures ByteLength(Escaped(EscapeChar, s)) == ByteLength(s) + EscapeCost(s)
  {
    if s != "" {
      EscapedBytes(s[1..]);
      CharBytes(s[0]);
      hide EscapeChar, Utf8Char;
      Utf8Concat(EscapeChar(s[0]), Escaped(EscapeChar, s[1..]));
    }
  }

  lemma CharBytes(c: char)
    ensures |Utf8(EscapeChar(c))| == |Utf8Char(c)| + EscapeCost([c])
    ensures forall s: string :: s != "" && s[0] == c ==> EscapeCost(s) == EscapeCost([c]) + EscapeCost(s[1..])
  {
    EscapesExactly(c);
    assert [c][1..] == "";
    if EscapeChar(c) == [c] {
      Utf8Layout(c);
    } else {
      AsciiByteLength(EscapeChar(c));
    }
  }

  // The size of a string literal, whatever its characters.
  lemma QuotedBytes(s: string)
    ensures ByteLength(Quoted(EscapeChar, s)) == ByteLength(s) + EscapeCost(s) + 2
  {
    EscapedBytes(s);
    hide Escaped, EscapeCost;
    AsciiByteLength("\"");
    Utf8Concat("\"" + Escaped(EscapeChar, s), "\"");
    Utf8Concat("\"", Escaped(EscapeChar, s));
  }

  // ---- The text of an object -------------------------------------------------------------------------

  // Texts with a comma between any two.
  function Listed(parts: seq<string>): string {
    if parts == [] then "" else if |parts| == 1 then parts[0] else parts[0] + "," + Listed(parts[1..])
  }

  // A property of an object, where neither its name nor the punctuation needs an escape.
  function Property(name: string, value: string): string {
    "\"" + name + "\":" + value
  }

  // The properties of an object in their order.
  function Properties(entries: seq<Entry>): seq<string> {
    seq(|entries|, i requires 0 <= i < |entries| =>
          Property(entries[i].name, ValueText(EscapeChar, entries[i].value)))
  }

  lemma {:induction false} StringifyExactly(entries: seq<Entry>)
    requires forall e :: e in entries ==> NeedsNoEscape(e.name)
    ensures Stringify(entries) == "{" + Listed(Properties(entries)) + "}"
  {
    hide NeedsNoEscape, ValueText, Property;
    MembersExactly(entries);
    assert "{" + (Listed(Properties(entries)) + "}") == "{" + Listed(Properties(entries)) + "}";
  }

  lemma {:induction false} MembersExactly(entries: seq<Entry>)
    requires forall e :: e in entries ==> NeedsNoEscape(e.name)
    ensures Members(EscapeChar, entries) == Listed(Properties(entries)) + "}"
  {
    hide NeedsNoEscape, ValueText, Property, Member;
    if entries != [] {
      MemberExactly(entries[0]);
      var first, rest := Property(entries[0].name, ValueText(EscapeChar, entries[0].value)), Properties(entries[1..]);
      if |entries| > 1 {
        assert rest != [];
        assert Properties(entries)[1..] == rest;
        MembersExactly(entries[1..]);
        assert first + "," + (Listed(rest) + "}") == first + "," + Listed(rest) + "}";
      } else {
        assert Properties(entries) == [first];
      }
    }
  }

  lemma MemberExactly(e: Entry)
    requires NeedsNoEscape(e.name)
    ensures Member(EscapeChar, e) == Property(e.name, ValueText(EscapeChar, e.value))
  {
    hide NeedsNoEscape, ValueText, Quoted;
    QuotedExactly(e.name);
    assert "\"" + e.name + "\"" + ":" == "\"" + e.name + "\":";
  }

  // ---- No newline inside a frame -----------------------------------------------------------------------

  predicate NoControls(s: string) {
    forall k :: 0 <= k < |s| ==> s[k] >= ' '
  }

  lemma {:induction false} EscapedPrintable(t: string)
    ensures NoControls(Escaped(EscapeChar, t))
  {
    if t != "" {
      EscapedPrintable(t[1..]);
    }
  }

  lemma ValuePrintable(v: Flat)
    ensures NoControls(ValueText(EscapeChar, v))
  {
    match v
    case Str(t) => EscapedPrintable(t);
    case Num(n) =>
    case Bool(_) =>
    case Null =>
  }

  lemma {:induction false} MembersPrintable(entries: seq<Entry>)
    ensures NoControls(Members(EscapeChar, entries))
  {
    hide ValueText, Escaped;
    if entries != [] {
      EscapedPrintable(entries[0].name);
      ValuePrintable(entries[0].value);
      MembersPrintable(entries[1..]);
    }
  }

  // Whatever the strings contain, the text has no control character, so no newline.
  lemma StringifyHasNoNewline(entries: seq<Entry>)
    ensures NoControls(Stringify(entries)) && '\n' !in Stringify(entries)
    ensures !IsBlank(Stringify(entries))
  {
    MembersPrintable(entries);
    assert Stringify(entries)[0] == '{';
  }
}
