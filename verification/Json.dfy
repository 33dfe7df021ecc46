/**
 JSON text (RFC 8259): a compact printer that escapes strings the way Go's
 encoding/json does, and a parser for arbitrary JSON text.
 */
module Json {

  datatype Value =
    | Null
    | Bool(b: bool)
    | Number(token: string)
    | Str(s: string)
    | Arr(items: seq<Value>)
    | Obj(members: seq<Member>)

  datatype Member = Member(key: string, value: Value)

  datatype Parsed<+T> = Fail | Got(value: T, rest: string)

  // ---------------------------------------------------------------- strings

  predicate IsDigit(c: char) { '0' <= c <= '9' }

  function HexDigit(n: int): char
    requires 0 <= n < 16
  {
    if n < 10 then (n + 48) as char else (n + 87) as char
  }

  function HexValue(c: char): (n: int)
    ensures -1 <= n < 16
  {
    if '0' <= c <= '9' then c as int - '0' as int
    else if 'a' <= c <= 'f' then c as int - 'a' as int + 10
    else if 'A' <= c <= 'F' then c as int - 'A' as int + 10
    else -1
  }

  function Hex4(n: int): string
    requires 0 <= n < 0x10000
  {
    [HexDigit(n / 4096), HexDigit(n / 256 % 16), HexDigit(n / 16 % 16), HexDigit(n % 16)]
  }

  // The code unit spelled by the first four characters, or -1.
  function ParseHex4(s: string): (n: int)
    ensures -1 <= n < 0x10000
  {
    if |s| >= 4 && HexValue(s[0]) >= 0 && HexValue(s[1]) >= 0 && HexValue(s[2]) >= 0 && HexValue(s[3]) >= 0 then
      HexValue(s[0]) * 4096 + HexValue(s[1]) * 256 + HexValue(s[2]) * 16 + HexValue(s[3])
    else -1
  }

  // Characters encoding/json writes as a \u escape: controls without a short
  // form, the HTML-sensitive ones, and the two JavaScript line separators.
  predicate NeedsUnicodeEscape(c: char) {
    c < ' ' || c == '<' || c == '>' || c == '&' || c == '\U{2028}' || c == '\U{2029}'
  }

  function EscapeChar(c: char): string {
    if c == '\"' then "\\\""
    else if c == '\\' then "\\\\"
    else if c == '\U{8}' then "\\b"
    else if c == '\U{c}' then "\\f"
    else if c == '\n' then "\\n"
    else if c == '\r' then "\\r"
    else if c == '\t' then "\\t"
    else if NeedsUnicodeEscape(c) then "\\u" + Hex4(c as int)
    else [c]
  }

  function EscapeAll(s: string): string {
    if s == "" then "" else EscapeChar(s[0]) + EscapeAll(s[1..])
  }

  predicate IsSurrogate(u: int) { 0xD800 <= u < 0xE000 }

  // The character an escape stands for; `s` starts after the backslash.  A
  // surrogate that is not half of a pair becomes U+FFFD.
  function ParseEscape(s: string): (r: Parsed<char>)
    ensures r.Got? ==> |r.rest| < |s|
  {
    if s == "" then Fail
    else if s[0] == '\"' || s[0] == '\\' || s[0] == '/' then Got(s[0], s[1..])
    else if s[0] == 'b' then Got('\U{8}', s[1..])
    else if s[0] == 'f' then Got('\U{c}', s[1..])
    else if s[0] == 'n' then Got('\n', s[1..])
    else if s[0] == 'r' then Got('\r', s[1..])
    else if s[0] == 't' then Got('\t', s[1..])
    else if s[0] == 'u' && ParseHex4(s[1..]) >= 0 then
      var u, t := ParseHex4(s[1..]), s[5..];
      if !IsSurrogate(u) then Got(u as char, t)
      else
        var low := if |t| >= 2 && t[0] == '\\' && t[1] == 'u' then ParseHex4(t[2..]) else -1;
        if u < 0xDC00 && 0xDC00 <= low < 0xE000 then
          Got(((u - 0xD800) * 1024 + (low - 0xDC00) + 0x10000) as char, t[6..])
        else Got('\U{FFFD}', t)
    else Fail
  }

  function Push(c: char, r: Parsed<string>): Parsed<string> {
    if r.Fail? then Fail else Got([c] + r.value, r.rest)
  }

  // The rest of a string literal, up to and including its closing quote.
  function ParseChars(s: string): (r: Parsed<string>)
    ensures r.Got? ==> |r.rest| < |s|
    decreases |s|
  {
    if s == "" then Fail
    else if s[0] == '\"' then Got("", s[1..])
    else if s[0] == '\\' then
      var e := ParseEscape(s[1..]);
      if e.Fail? then Fail else Push(e.value, ParseChars(e.rest))
    else if s[0] < ' ' then Fail
    else Push(s[0], ParseChars(s[1..]))
  }

  lemma HexDigitValue(n: int)
    requires 0 <= n < 16
    ensures HexValue(HexDigit(n)) == n
  {
  }

  lemma ParseHex(n: int, rest: string)
    requires 0 <= n < 0x10000
    ensures ParseHex4(Hex4(n) + rest) == n
  {
    var t := Hex4(n) + rest;
    var a, b, c, d := n / 4096, n / 256 % 16, n / 16 % 16, n % 16;
    assert t[0] == HexDigit(a) && t[1] == HexDigit(b) && t[2] == HexDigit(c) && t[3] == HexDigit(d);
    HexDigitValue(a);
    HexDigitValue(b);
    HexDigitValue(c);
    HexDigitValue(d);
    assert n / 16 / 16 == n / 256 && n / 256 / 16 == a;
  }

  lemma ParseEscaped(c: char, rest: string)
    ensures ParseChars(EscapeChar(c) + rest) == Push(c, ParseChars(rest))
  {
    if |EscapeChar(c)| == 1 {
      ParsePlain(c, rest);
    } else if |EscapeChar(c)| == 2 {
      ParseShort(c, rest);
    } else {
      ParseUnicode(c, rest);
    }
  }

  lemma ParsePlain(c: char, rest: string)
    requires |EscapeChar(c)| == 1
    ensures ParseChars(EscapeChar(c) + rest) == Push(c, ParseChars(rest))
  {
    assert ([c] + rest)[1..] == rest;
  }

  lemma ParseShort(c: char, rest: string)
    requires |EscapeChar(c)| == 2
    ensures ParseChars(EscapeChar(c) + rest) == Push(c, ParseChars(rest))
  {
    var e := EscapeChar(c);
    assert e[0] == '\\' && (e + rest)[0] == e[0] && (e + rest)[1..] == [e[1]] + rest;
    ParseShortEscape(c, rest);
  }

  lemma ParseUnicode(c: char, rest: string)
    requires |EscapeChar(c)| > 2
    ensures ParseChars(EscapeChar(c) + rest) == Push(c, ParseChars(rest))
  {
    var t := EscapeChar(c) + rest;
    assert t[0] == '\\' && t[1..] == "u" + Hex4(c as int) + rest;
    ParseUnicodeEscape(c, rest);
  }

  lemma ParseShortEscape(c: char, rest: string)
    requires |EscapeChar(c)| == 2
    ensures ParseEscape([EscapeChar(c)[1]] + rest) == Got(c, rest)
  {
  }

  lemma ParseUnicodeEscape(c: char, rest: string)
    requires NeedsUnicodeEscape(c)
    ensures ParseEscape("u" + Hex4(c as int) + rest) == Got(c, rest)
  {
    var t := "u" + Hex4(c as int) + rest;
    ParseHex(c as int, rest);
    assert t[1..] == Hex4(c as int) + rest && t[5..] == rest;
  }

  // Unescaping a printed string gives the string back, whatever follows it.
  lemma {:induction false} ParseEscapedAll(s: string, rest: string)
    ensures ParseChars(EscapeAll(s) + "\"" + rest) == Got(s, rest)
  {
    if s == "" {
      assert EscapeAll(s) + "\"" + rest == "\"" + rest;
    } else {
      var tail := EscapeAll(s[1..]) + "\"" + rest;
      assert EscapeAll(s) + "\"" + rest == EscapeChar(s[0]) + tail;
      ParseEscaped(s[0], tail);
      ParseEscapedAll(s[1..], rest);
      assert s == [s[0]] + s[1..];
    }
  }

  // ---------------------------------------------------------------- numbers

  function Digit(n: int): char
    requires 0 <= n < 10
  {
    (n + 48) as char
  }

  function NatText(n: nat): string {
    if n < 10 then [Digit(n)] else NatText(n / 10) + [Digit(n % 10)]
  }

  function IntText(n: int): string {
    if n < 0 then "-" + NatText(-n) else NatText(n)
  }

  function DigitValue(c: char): (n: int)
    ensures IsDigit(c) ==> 0 <= n < 10 && c == Digit(n)
  {
    c as int - 48
  }

  function NatValue(s: string): int {
    if s == "" then 0 else NatValue(s[..|s| - 1]) * 10 + DigitValue(s[|s| - 1])
  }

  // strconv.ParseInt on a JSON number token: an optional minus and digits only.
  function ParseInt(token: string): (r: Parsed<int>)
  {
    var neg := token != "" && token[0] == '-';
    var digits := if neg then token[1..] else token;
    if digits == "" || exists c :: c in digits && !IsDigit(c) then Fail
    else Got(if neg then -NatValue(digits) else NatValue(digits), "")
  }

  function DigitCount(s: string): (n: nat)
    ensures n <= |s|
  {
    if s != "" && IsDigit(s[0]) then 1 + DigitCount(s[1..]) else 0
  }

  // Length of a fraction ".digits" at the start of `s`; -1 when malformed.
  function FractionLength(s: string): (n: int)
    ensures -1 <= n <= |s|
  {
    if s == "" || s[0] != '.' then 0
    else if DigitCount(s[1..]) == 0 then -1
    else 1 + DigitCount(s[1..])
  }

  function ExponentLength(s: string): (n: int)
    ensures -1 <= n <= |s|
  {
    if s == "" || (s[0] != 'e' && s[0] != 'E') then 0
    else
      var sign := if |s| >= 2 && (s[1] == '+' || s[1] == '-') then 2 else 1;
      if DigitCount(s[sign..]) == 0 then -1 else sign + DigitCount(s[sign..])
  }

  // The longest JSON number at the start of `s`.
  function ParseNumber(s: string): (r: Parsed<string>)
    ensures r.Got? ==> |r.rest| < |s|
  {
    var sign := if s != "" && s[0] == '-' then 1 else 0;
    var digits := DigitCount(s[sign..]);
    if digits == 0 then Fail
    else
      var whole := sign + if s[sign] == '0' then 1 else digits;
      var fraction := FractionLength(s[whole..]);
      if fraction < 0 then Fail
      else
        var exponent := ExponentLength(s[whole + fraction..]);
        if exponent < 0 then Fail
        else
          var end := whole + fraction + exponent;
          Got(s[..end], s[end..])
  }

  // What may follow a number without being taken for part of it.
  predicate Delimited(rest: string) {
    rest != "" ==> !IsDigit(rest[0]) && rest[0] != '.' && rest[0] != 'e' && rest[0] != 'E'
  }

  lemma {:induction false} NatTextShape(n: nat)
    ensures NatText(n) != ""
    ensures forall c :: c in NatText(n) ==> IsDigit(c)
    ensures NatText(n)[0] == '0' ==> n == 0
    ensures NatValue(NatText(n)) == n
  {
    if n >= 10 {
      NatTextShape(n / 10);
      var t := NatText(n);
      assert t[..|t| - 1] == NatText(n / 10);
      assert t[0] == NatText(n / 10)[0];
    } else {
      assert NatText(n)[..0] == "";
    }
  }

  lemma {:induction false} DigitRun(digits: string, rest: string)
    requires forall c :: c in digits ==> IsDigit(c)
    requires rest != "" ==> !IsDigit(rest[0])
    ensures DigitCount(digits + rest) == |digits|
  {
    if digits == "" {
      assert digits + rest == rest;
    } else {
      assert (digits + rest)[1..] == digits[1..] + rest;
      DigitRun(digits[1..], rest);
    }
  }

  lemma ParseIntText(n: int)
    ensures ParseInt(IntText(n)) == Got(n, "")
  {
    NatTextShape(if n < 0 then -n else n);
    if n < 0 {
      assert IntText(n)[1..] == NatText(-n);
    } else {
      assert NatText(n)[0] in NatText(n);
    }
  }

  // A sign and a run of digits without a redundant leading zero is one token.
  lemma ParseWhole(sign: string, digits: string, rest: string)
    requires sign == "" || sign == "-"
    requires digits != "" && forall c :: c in digits ==> IsDigit(c)
    requires digits[0] == '0' ==> |digits| == 1
    requires Delimited(rest)
    ensures ParseNumber(sign + digits + rest) == Got(sign + digits, rest)
  {
    var t := sign + digits + rest;
    var end := |sign| + |digits|;
    assert digits[0] in digits;
    assert t[|sign|..] == digits + rest && t[|sign|] == digits[0];
    assert t[0] == if sign == "" then digits[0] else '-';
    DigitRun(digits, rest);
    assert t[end..] == rest && t[..end] == sign + digits;
    assert FractionLength(rest) == 0 && ExponentLength(rest) == 0;
  }

  lemma ParseNumberText(n: int, rest: string)
    requires Delimited(rest)
    ensures ParseNumber(IntText(n) + rest) == Got(IntText(n), rest)
  {
    var m := if n < 0 then -n else n;
    NatTextShape(m);
    if NatText(m)[0] == '0' { assert NatText(m) == "0"; }
    ParseWhole(if n < 0 then "-" else "", NatText(m), rest);
    assert IntText(n) == (if n < 0 then "-" else "") + NatText(m);
  }

  // ----------------------------------------------------------------- values

  function Quote(s: string): string {
    "\"" + EscapeAll(s) + "\""
  }

  function Print(v: Value): string {
    match v
    case Null => "null"
    case Bool(b) => if b then "true" else "false"
    case Number(token) => token
    case Str(s) => Quote(s)
    case Arr(items) => "[" + PrintItems(items) + "]"
    case Obj(members) => "{" + PrintMembers(members) + "}"
  }

  function PrintItems(items: seq<Value>): string {
    if items == [] then ""
    else if |items| == 1 then Print(items[0])
    else Print(items[0]) + "," + PrintItems(items[1..])
  }

  function PrintMember(m: Member): string {
    Quote(m.key) + ":" + Print(m.value)
  }

  function PrintMembers(members: seq<Member>): string {
    if members == [] then ""
    else if |members| == 1 then PrintMember(members[0])
    else PrintMember(members[0]) + "," + PrintMembers(members[1..])
  }

  predicate IsSpace(c: char) { c == ' ' || c == '\t' || c == '\n' || c == '\r' }

  function SkipSpace(s: string): (r: string)
    ensures |r| <= |s|
  {
    if s != "" && IsSpace(s[0]) then SkipSpace(s[1..]) else s
  }

  // A literal name: its first character commits to the rest.
  function ParseName(s: string, name: string, v: Value): (r: Parsed<Value>)
    ensures r.Got? && name != "" ==> |r.rest| < |s|
  {
    if |name| <= |s| && s[..|name|] == name then Got(v, s[|name|..]) else Fail
  }

  function ParseAtom(s: string): (r: Parsed<Value>)
    requires s != ""
    ensures r.Got? ==> |r.rest| < |s|
  {
    if s[0] == '\"' then
      var r := ParseChars(s[1..]);
      if r.Fail? then Fail else Got(Str(r.value), r.rest)
    else if s[0] == 't' then ParseName(s, "true", Bool(true))
    else if s[0] == 'f' then ParseName(s, "false", Bool(false))
    else if s[0] == 'n' then ParseName(s, "null", Null)
    else
      var r := ParseNumber(s);
      if r.Fail? then Fail else Got(Number(r.value), r.rest)
  }

  function ParseValue(text: string): (r: Parsed<Value>)
    ensures r.Got? ==> |r.rest| < |text|
    decreases |text|, 1
  {
    var s := SkipSpace(text);
    if s == "" then Fail
    else if s[0] == '{' then
      var t := SkipSpace(s[1..]);
      if t != "" && t[0] == '}' then Got(Obj([]), t[1..])
      else
        var r := ParseMembers(t);
        if r.Fail? then Fail else Got(Obj(r.value), r.rest)
    else if s[0] == '[' then
      var t := SkipSpace(s[1..]);
      if t != "" && t[0] == ']' then Got(Arr([]), t[1..])
      else
        var r := ParseItems(t);
        if r.Fail? then Fail else Got(Arr(r.value), r.rest)
    else ParseAtom(s)
  }

  // One or more array items, up to and including the closing bracket.
  function ParseItems(text: string): (r: Parsed<seq<Value>>)
    ensures r.Got? ==> |r.rest| < |text|
    decreases |text|, 2
  {
    var v := ParseValue(text);
    if v.Fail? then Fail
    else
      var s := SkipSpace(v.rest);
      if s == "" then Fail
      else if s[0] == ']' then Got([v.value], s[1..])
      else if s[0] == ',' then
        var r := ParseItems(s[1..]);
        if r.Fail? then Fail else Got([v.value] + r.value, r.rest)
      else Fail
  }

  // A key, its colon and its value.
  function ParseMember(text: string): (r: Parsed<Member>)
    ensures r.Got? ==> |r.rest| < |text|
    decreases |text|, 2
  {
    var s := SkipSpace(text);
    if s == "" || s[0] != '\"' then Fail
    else
      var k := ParseChars(s[1..]);
      if k.Fail? then Fail
      else
        var t := SkipSpace(k.rest);
        if t == "" || t[0] != ':' then Fail
        else
          var v := ParseValue(t[1..]);
          if v.Fail? then Fail else Got(Member(k.value, v.value), v.rest)
  }

  // One or more members, up to and including the closing brace.
  function ParseMembers(text: string): (r: Parsed<seq<Member>>)
    ensures r.Got? ==> |r.rest| < |text|
    decreases |text|, 3
  {
    var m := ParseMember(text);
    if m.Fail? then Fail
    else
      var s := SkipSpace(m.rest);
      if s == "" then Fail
      else if s[0] == '}' then Got([m.value], s[1..])
      else if s[0] == ',' then
        var r := ParseMembers(s[1..]);
        if r.Fail? then Fail else Got([m.value] + r.value, r.rest)
      else Fail
  }

  // A whole document: one value with nothing but white space around it.
  function ParseText(text: string): (r: Parsed<Value>)
  {
    var v := ParseValue(text);
    if v.Fail? || SkipSpace(v.rest) != "" then Fail else Got(v.value, "")
  }

  // ------------------------------------------------------------- round trip

  ghost predicate Integral(token: string) {
    exists n :: token == IntText(n)
  }

  // Values whose numbers are integers, the only numbers the printer is given.
  ghost predicate Printable(v: Value) {
    match v
    case Number(token) => Integral(token)
    case Arr(items) => forall i :: 0 <= i < |items| ==> Printable(items[i])
    case Obj(members) => forall i :: 0 <= i < |members| ==> Printable(members[i].value)
    case _ => true
  }

  // The first character of a printed value decides how it is parsed.
  lemma PrintHead(v: Value)
    requires Printable(v)
    ensures Print(v) != ""
    ensures v.Number? ==> Print(v)[0] == '-' || IsDigit(Print(v)[0])
    ensures !IsSpace(Print(v)[0])
    ensures Print(v)[0] != ']' && Print(v)[0] != '}'
    ensures !v.Arr? ==> Print(v)[0] != '['
    ensures !v.Obj? ==> Print(v)[0] != '{'
  {
    if v.Number? {
      var n :| v.token == IntText(n);
      NatTextShape(if n < 0 then -n else n);
      if n >= 0 { assert v.token[0] in NatText(n); }
    }
  }

  lemma ParsePrintString(s: string, rest: string)
    ensures (Quote(s) + rest)[0] == '\"'
    ensures ParseChars((Quote(s) + rest)[1..]) == Got(s, rest)
  {
    assert (Quote(s) + rest)[1..] == EscapeAll(s) + "\"" + rest;
    ParseEscapedAll(s, rest);
  }

  lemma ParsePrintName(name: string, v: Value, rest: string)
    ensures ParseName(name + rest, name, v) == Got(v, rest)
  {
  }

  lemma ParsePrintAtom(v: Value, rest: string)
    requires Printable(v) && !v.Arr? && !v.Obj? && Delimited(rest)
    ensures Print(v) + rest != "" && ParseAtom(Print(v) + rest) == Got(v, rest)
  {
    PrintHead(v);
    var t := Print(v) + rest;
    assert t[0] == Print(v)[0];
    match v
    case Null => ParsePrintName("null", v, rest);
    case Bool(b) =>
      if b { ParsePrintName("true", v, rest); } else { ParsePrintName("false", v, rest); }
    case Number(token) =>
      var n :| token == IntText(n);
      ParsePrintNumber(n, rest);
    case Str(s) => ParsePrintString(s, rest);
  }

  lemma ParsePrintNumber(n: int, rest: string)
    requires Delimited(rest)
    ensures IntText(n) + rest != "" && ParseAtom(IntText(n) + rest) == Got(Number(IntText(n)), rest)
  {
    assert Integral(IntText(n));
    PrintHead(Number(IntText(n)));
    assert (IntText(n) + rest)[0] == IntText(n)[0];
    ParseNumberText(n, rest);
  }

  lemma ValueIsAtom(text: string, r: Parsed<Value>)
    requires text != "" && !IsSpace(text[0]) && text[0] != '[' && text[0] != '{'
    requires ParseAtom(text) == r
    ensures ParseValue(text) == r
  {
  }

  lemma ValueIsArray(body: string, items: seq<Value>, rest: string)
    requires body != "" && !IsSpace(body[0])
    requires if items == [] then body == "]" + rest else body[0] != ']' && ParseItems(body) == Got(items, rest)
    ensures ParseValue("[" + body) == Got(Arr(items), rest)
  {
  }

  lemma ValueIsObject(body: string, members: seq<Member>, rest: string)
    requires body != "" && !IsSpace(body[0])
    requires if members == [] then body == "}" + rest else body[0] != '}' && ParseMembers(body) == Got(members, rest)
    ensures ParseValue("{" + body) == Got(Obj(members), rest)
  {
  }

  lemma ItemsStep(text: string, v: Value, more: seq<Value>, tail: string, rest: string)
    requires
      if more == [] then ParseValue(text) == Got(v, "]" + rest)
      else ParseValue(text) == Got(v, "," + tail) && ParseItems(tail) == Got(more, rest)
    ensures ParseItems(text) == Got([v] + more, rest)
  {
    if more == [] { assert [v] + more == [v]; }
    var after := ParseValue(text).rest;
    assert SkipSpace(after) == after;
    assert after[1..] == if more == [] then rest else tail;
  }

  lemma MemberStep(text: string, m: Member, body: string, rest: string)
    requires text != "" && text[0] == '\"'
    requires ParseChars(text[1..]) == Got(m.key, ":" + body)
    requires ParseValue(body) == Got(m.value, rest)
    ensures ParseMember(text) == Got(m, rest)
  {
  }

  lemma MembersStep(text: string, m: Member, more: seq<Member>, tail: string, rest: string)
    requires
      if more == [] then ParseMember(text) == Got(m, "}" + rest)
      else ParseMember(text) == Got(m, "," + tail) && ParseMembers(tail) == Got(more, rest)
    ensures ParseMembers(text) == Got([m] + more, rest)
  {
    if more == [] { assert [m] + more == [m]; }
    var after := ParseMember(text).rest;
    assert SkipSpace(after) == after;
    assert after[1..] == if more == [] then rest else tail;
  }

  // Parsing a printed value consumes exactly it and gives it back.
  lemma {:induction false} ParsePrint(v: Value, rest: string)
    requires Printable(v) && Delimited(rest)
    ensures ParseValue(Print(v) + rest) == Got(v, rest)
    decreases v, 2
  {
    match v
    case Arr(items) => ParsePrintArray(items, rest);
    case Obj(members) => ParsePrintObject(members, rest);
    case _ =>
      PrintHead(v);
      var text := Print(v) + rest;
      assert text[0] == Print(v)[0];
      ParsePrintAtom(v, rest);
      ValueIsAtom(text, Got(v, rest));
  }

  lemma {:induction false} ParsePrintArray(items: seq<Value>, rest: string)
    requires forall i :: 0 <= i < |items| ==> Printable(items[i])
    ensures ParseValue(Print(Arr(items)) + rest) == Got(Arr(items), rest)
    decreases items, 1
  {
    var body := PrintItems(items) + ("]" + rest);
    assert Print(Arr(items)) + rest == "[" + body;
    if items != [] {
      PrintHead(items[0]);
      assert body[0] == Print(items[0])[0];
      ParsePrintItems(items, rest);
    }
    ValueIsArray(body, items, rest);
  }

  lemma {:induction false} ParsePrintObject(members: seq<Member>, rest: string)
    requires forall i :: 0 <= i < |members| ==> Printable(members[i].value)
    ensures ParseValue(Print(Obj(members)) + rest) == Got(Obj(members), rest)
    decreases members, 1
  {
    var body := PrintMembers(members) + ("}" + rest);
    assert Print(Obj(members)) + rest == "{" + body;
    if members != [] {
      assert body[0] == PrintMember(members[0])[0] == '\"';
      ParsePrintMembers(members, rest);
    }
    ValueIsObject(body, members, rest);
  }

  lemma {:induction false} ParsePrintItems(items: seq<Value>, rest: string)
    requires items != [] && forall i :: 0 <= i < |items| ==> Printable(items[i])
    ensures ParseItems(PrintItems(items) + ("]" + rest)) == Got(items, rest)
    decreases items, 0
  {
    var v, more, end := items[0], items[1..], "]" + rest;
    var text := PrintItems(items) + end;
    assert items == [v] + more;
    if more == [] {
      ParsePrint(v, end);
      ItemsStep(text, v, [], "", rest);
    } else {
      var tail := PrintItems(more) + end;
      Regroup(Print(v), PrintItems(more), end);
      ParsePrint(v, "," + tail);
      ParsePrintItems(more, rest);
      ItemsStep(text, v, more, tail, rest);
    }
  }

  lemma RegroupMember(key: string, value: string, rest: string)
    ensures key + ":" + value + rest == key + (":" + (value + rest))
  {
  }

  lemma {:induction false} ParsePrintMember(m: Member, rest: string)
    requires Printable(m.value) && Delimited(rest)
    ensures ParseMember(PrintMember(m) + rest) == Got(m, rest)
    decreases m, 2
  {
    var body := Print(m.value) + rest;
    var text := Quote(m.key) + (":" + body);
    RegroupMember(Quote(m.key), Print(m.value), rest);
    ParsePrintString(m.key, ":" + body);
    ParsePrint(m.value, rest);
    MemberStep(text, m, body, rest);
  }

  lemma Regroup(p: string, q: string, end: string)
    ensures p + "," + q + end == p + ("," + (q + end))
  {
  }

  lemma {:induction false} ParsePrintMembers(members: seq<Member>, rest: string)
    requires members != [] && forall i :: 0 <= i < |members| ==> Printable(members[i].value)
    ensures ParseMembers(PrintMembers(members) + ("}" + rest)) == Got(members, rest)
    decreases members, 0
  {
    var m, more, end := members[0], members[1..], "}" + rest;
    var text := PrintMembers(members) + end;
    assert members == [m] + more;
    if more == [] {
      ParsePrintMember(m, end);
      MembersStep(text, m, [], "", rest);
    } else {
      var tail := PrintMembers(more) + end;
      Regroup(PrintMember(m), PrintMembers(more), end);
      ParsePrintMember(m, "," + tail);
      ParsePrintMembers(more, rest);
      MembersStep(text, m, more, tail, rest);
    }
  }

  // Reading back a printed document gives the document.
  lemma ParseTextPrint(v: Value)
    requires Printable(v)
    ensures ParseText(Print(v)) == Got(v, "")
  {
    ParsePrint(v, "");
    assert Print(v) + "" == Print(v);
  }
}
