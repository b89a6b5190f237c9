/**
 * JSON text (RFC 8259) as Go's encoding/json writes and reads it: the writer escapes HTML characters
 * and line separators, the reader accepts the whole grammar up to 10000 nested containers.
 * The main result is ParsePrint: reading what the writer produced gives back the same value.
 */
module Json {
  import opened Base
  import Uuid

  datatype Field = Field(key: string, value: Json)

  datatype Json =
    | Null
    | Bool(b: bool)
    | Number(literal: string)
    | Str(text: string)
    | Array(items: seq<Json>)
    | Object(fields: seq<Field>)

  const MAX_DEPTH: nat := 10000

  // ---------------------------------------------------------------- writing

  function UnicodeEscape(n: int): string
    requires 0 <= n < 0x10000
  {
    ['\\', 'u', Uuid.HexChar(n / 4096), Uuid.HexChar(n / 256 % 16), Uuid.HexChar(n / 16 % 16), Uuid.HexChar(n % 16)]
  }

  function EscapeChar(c: char): string {
    var n := c as int;
    if c == '"' then "\\\"" else if c == '\\' then "\\\\"
    else if n == 8 then "\\b" else if n == 12 then "\\f"
    else if c == '\n' then "\\n" else if c == '\r' then "\\r" else if c == '\t' then "\\t"
    else if n < 0x20 || c == '<' || c == '>' || c == '&' || n == 0x2028 || n == 0x2029 then UnicodeEscape(n)
    else [c]
  }

  function Escape(s: string): string {
    if s == [] then [] else EscapeChar(s[0]) + Escape(s[1..])
  }

  function Quote(s: string): string {
    "\"" + Escape(s) + "\""
  }

  function Digit(d: int): char
    requires 0 <= d < 10
  {
    ('0' as int + d) as char
  }

  function PrintNat(n: nat): (s: string)
    ensures |s| > 0
  {
    if n < 10 then [Digit(n)] else PrintNat(n / 10) + [Digit(n % 10)]
  }

  function PrintInt(n: int): string {
    if n < 0 then "-" + PrintNat(-n) else PrintNat(n)
  }

  function Print(j: Json): string
    decreases j, 0
  {
    match j
    case Null => "null"
    case Bool(b) => if b then "true" else "false"
    case Number(literal) => literal
    case Str(text) => Quote(text)
    case Array(items) => "[" + PrintItems(items) + "]"
    case Object(fields) => "{" + PrintFields(fields) + "}"
  }

  function PrintItems(items: seq<Json>): string
    decreases items, 1
  {
    if items == [] then ""
    else if |items| == 1 then Print(items[0])
    else Print(items[0]) + "," + PrintItems(items[1..])
  }

  function PrintFields(fields: seq<Field>): string
    decreases fields, 1
  {
    if fields == [] then ""
    else if |fields| == 1 then PrintField(fields[0])
    else PrintField(fields[0]) + "," + PrintFields(fields[1..])
  }

  function PrintField(f: Field): string
    decreases f, 1
  {
    Quote(f.key) + ":" + Print(f.value)
  }

  // ---------------------------------------------------------------- reading

  datatype Parsed<+T> = Fail | Done(value: T, rest: string)

  predicate IsSpace(c: char) {
    c == ' ' || c == '\t' || c == '\n' || c == '\r'
  }

  function SkipSpace(s: string): (r: string)
    ensures |r| <= |s|
  {
    if s != "" && IsSpace(s[0]) then SkipSpace(s[1..]) else s
  }

  predicate IsDigit(c: char) {
    '0' <= c <= '9'
  }

  function DigitRun(s: string): (k: nat)
    ensures k <= |s|
  {
    if s == "" || !IsDigit(s[0]) then 0 else 1 + DigitRun(s[1..])
  }

  /** The length of an optional fraction, or None when a point is not followed by a digit. */
  function FractionLength(s: string): (r: Option<nat>)
    ensures r.Some? ==> r.value <= |s|
  {
    if s == "" || s[0] != '.' then Some(0)
    else if DigitRun(s[1..]) == 0 then None
    else Some(1 + DigitRun(s[1..]))
  }

  function ExponentLength(s: string): (r: Option<nat>)
    ensures r.Some? ==> r.value <= |s|
  {
    if s == "" || (s[0] != 'e' && s[0] != 'E') then Some(0)
    else
      var start := if |s| > 1 && (s[1] == '+' || s[1] == '-') then 2 else 1;
      if DigitRun(s[start..]) == 0 then None else Some(start + DigitRun(s[start..]))
  }

  function SignLength(s: string): (k: nat)
    ensures k <= |s|
  {
    if s != "" && s[0] == '-' then 1 else 0
  }

  /** The length of the integer part of a number: a zero, or digits that do not start with one. */
  function IntegerLength(s: string): (r: Option<nat>)
    ensures r.Some? ==> 0 < r.value <= |s|
  {
    if s == "" || !IsDigit(s[0]) then None else Some(if s[0] == '0' then 1 else DigitRun(s))
  }

  function TailLength(s: string): (r: Option<nat>)
    ensures r.Some? ==> r.value <= |s|
  {
    match FractionLength(s)
    case None => None
    case Some(f) =>
      match ExponentLength(s[f..])
      case None => None
      case Some(e) => Some(f + e)
  }

  /** The length of the number literal that `s` starts with. */
  function NumberLength(s: string): (r: Option<nat>)
    ensures r.Some? ==> 0 < r.value <= |s|
  {
    var sign := SignLength(s);
    var digits := s[sign..];
    match IntegerLength(digits)
    case None => None
    case Some(i) =>
      match TailLength(digits[i..])
      case None => None
      case Some(t) => Some(sign + i + t)
  }

  /** The code unit of a backslash-u escape at the start of `s`. */
  function UnicodeUnit(s: string): (r: Option<int>)
    ensures r.Some? ==> 0 <= r.value < 0x10000
  {
    if |s| < 6 || s[0] != '\\' || s[1] != 'u' then None
    else
      var a, b, c, d := Uuid.HexValue(s[2]), Uuid.HexValue(s[3]), Uuid.HexValue(s[4]), Uuid.HexValue(s[5]);
      if a.None? || b.None? || c.None? || d.None? then None
      else Some(a.value * 4096 + b.value * 256 + c.value * 16 + d.value)
  }

  function SimpleEscape(c: char): Option<char> {
    match c
    case '"' => Some('"') case '\\' => Some('\\') case '/' => Some('/')
    case 'b' => Some(8 as char) case 'f' => Some(12 as char)
    case 'n' => Some('\n') case 'r' => Some('\r') case 't' => Some('\t')
    case _ => None
  }

  /** The first character of a string body and how many characters of text spell it. */
  function ParseChar(s: string): (r: Option<(char, nat)>)
    requires s != ""
    ensures r.Some? ==> 0 < r.value.1 <= |s|
  {
    if s[0] as int < 0x20 || s[0] == '"' then None
    else if s[0] != '\\' then Some((s[0], 1))
    else if |s| > 1 && SimpleEscape(s[1]).Some? then Some((SimpleEscape(s[1]).value, 2))
    else match UnicodeUnit(s)
      case None => None
      case Some(u) =>
        if !(0xD800 <= u < 0xE000) then Some((u as char, 6))
        else match UnicodeUnit(s[6..])
          case Some(v) =>
            if u < 0xDC00 && 0xDC00 <= v < 0xE000
            then Some((((u - 0xD800) * 0x400 + (v - 0xDC00) + 0x10000) as char, 12))
            else Some((0xFFFD as char, 6))
          case None => Some((0xFFFD as char, 6))
  }

  /** The string whose body starts `s`, up to the closing quotation mark. */
  function ParseString(s: string): (r: Parsed<string>)
    ensures r.Done? ==> |r.rest| < |s|
    decreases |s|
  {
    if s == "" then Fail
    else if s[0] == '"' then Done("", s[1..])
    else match ParseChar(s)
      case None => Fail
      case Some((c, n)) =>
        match ParseString(s[n..])
        case Fail => Fail
        case Done(text, rest) => Done([c] + text, rest)
  }

  /** A string, a literal name or a number. */
  function ParseScalar(s: string): (r: Parsed<Json>)
    requires s != ""
    ensures r.Done? ==> |r.rest| < |s|
  {
    if s[0] == '"' then
      match ParseString(s[1..])
      case Fail => Fail
      case Done(text, rest) => Done(Str(text), rest)
    else if "null" <= s then Done(Null, s[4..])
    else if "true" <= s then Done(Bool(true), s[4..])
    else if "false" <= s then Done(Bool(false), s[5..])
    else match NumberLength(s)
      case None => Fail
      case Some(n) => Done(Number(s[..n]), s[n..])
  }

  function ParseValue(s: string, depth: nat): (r: Parsed<Json>)
    ensures r.Done? ==> |r.rest| < |s|
    decreases |s|, 1
  {
    var t := SkipSpace(s);
    if t == "" then Fail
    else if t[0] == '{' then (if depth == 0 then Fail else ParseObject(t[1..], depth - 1))
    else if t[0] == '[' then (if depth == 0 then Fail else ParseArray(t[1..], depth - 1))
    else ParseScalar(t)
  }

  /** The rest of an array whose opening bracket has been read. */
  function ParseArray(s: string, depth: nat): (r: Parsed<Json>)
    ensures r.Done? ==> |r.rest| < |s|
    decreases |s|, 3
  {
    var u := SkipSpace(s);
    if u != "" && u[0] == ']' then Done(Array([]), u[1..])
    else match ParseItems(u, depth)
      case Fail => Fail
      case Done(items, rest) => Done(Array(items), rest)
  }

  function ParseItems(s: string, depth: nat): (r: Parsed<seq<Json>>)
    ensures r.Done? ==> |r.rest| < |s|
    decreases |s|, 2
  {
    match ParseValue(s, depth)
    case Fail => Fail
    case Done(item, rest) =>
      var t := SkipSpace(rest);
      if t == "" then Fail
      else if t[0] == ']' then Done([item], t[1..])
      else if t[0] != ',' then Fail
      else match ParseItems(t[1..], depth)
        case Fail => Fail
        case Done(items, rest') => Done([item] + items, rest')
  }

  /** The rest of an object whose opening brace has been read. */
  function ParseObject(s: string, depth: nat): (r: Parsed<Json>)
    ensures r.Done? ==> |r.rest| < |s|
    decreases |s|, 3
  {
    var u := SkipSpace(s);
    if u != "" && u[0] == '}' then Done(Object([]), u[1..])
    else match ParseFields(u, depth)
      case Fail => Fail
      case Done(fields, rest) => Done(Object(fields), rest)
  }

  function ParseField(s: string, depth: nat): (r: Parsed<Field>)
    ensures r.Done? ==> |r.rest| < |s|
    decreases |s|, 1
  {
    var k := SkipSpace(s);
    if k == "" || k[0] != '"' then Fail
    else match ParseString(k[1..])
      case Fail => Fail
      case Done(key, afterKey) =>
        var t := SkipSpace(afterKey);
        if t == "" || t[0] != ':' then Fail
        else match ParseValue(t[1..], depth)
          case Fail => Fail
          case Done(value, rest) => Done(Field(key, value), rest)
  }

  function ParseFields(s: string, depth: nat): (r: Parsed<seq<Field>>)
    ensures r.Done? ==> |r.rest| < |s|
    decreases |s|, 2
  {
    match ParseField(s, depth)
    case Fail => Fail
    case Done(field, rest) =>
      var t := SkipSpace(rest);
      if t == "" then Fail
      else if t[0] == '}' then Done([field], t[1..])
      else if t[0] != ',' then Fail
      else match ParseFields(t[1..], depth)
        case Fail => Fail
        case Done(fields, rest') => Done([field] + fields, rest')
  }

  /** One value with nothing but white space around it. */
  function Parse(s: string): Option<Json> {
    match ParseValue(s, MAX_DEPTH)
    case Fail => None
    case Done(j, rest) => if SkipSpace(rest) == "" then Some(j) else None
  }

  // ---------------------------------------------------------------- round trip

  /** Every number is a literal of the grammar and containers nest at most `depth` deep. */
  ghost predicate Printable(j: Json, depth: nat)
    decreases j
  {
    match j
    case Number(literal) => NumberLength(literal) == Some(|literal|)
    case Array(items) => depth > 0 && forall i :: 0 <= i < |items| ==> Printable(items[i], depth - 1)
    case Object(fields) => depth > 0 && forall i :: 0 <= i < |fields| ==> Printable(fields[i].value, depth - 1)
    case _ => true
  }

  /** What may follow a value inside a text the writer produced. */
  predicate Ends(rest: string) {
    rest == "" || rest[0] == ',' || rest[0] == ']' || rest[0] == '}'
  }

  lemma Reassociate(a: string, b: string, c: string, d: string)
    ensures a + b + c + d == a + (b + (c + d))
  {
  }

  lemma DropHead(c: char, s: string)
    ensures ([c] + s)[1..] == s
  {
  }

  lemma FourDigits(n: nat)
    ensures n == n / 4096 * 4096 + n / 256 % 16 * 256 + n / 16 % 16 * 16 + n % 16
  {
    assert n / 256 == n / 4096 * 16 + n / 256 % 16;
    assert n / 16 == n / 256 * 16 + n / 16 % 16;
  }

  lemma ParseUnicodeEscape(n: int, rest: string)
    requires 0 <= n < 0x10000
    ensures UnicodeUnit(UnicodeEscape(n) + rest) == Some(n)
  {
    var a, b, c, d := n / 4096, n / 256 % 16, n / 16 % 16, n % 16;
    Uuid.HexValueOfChar(a);
    Uuid.HexValueOfChar(b);
    Uuid.HexValueOfChar(c);
    Uuid.HexValueOfChar(d);
    FourDigits(n);
    var s := UnicodeEscape(n) + rest;
    assert s[0] == '\\' && s[1] == 'u' && s[2] == Uuid.HexChar(a) && s[3] == Uuid.HexChar(b);
    assert s[4] == Uuid.HexChar(c) && s[5] == Uuid.HexChar(d);
  }

  lemma ParseEscapedChar(c: char, rest: string)
    ensures EscapeChar(c) != "" && EscapeChar(c)[0] != '"'
    ensures ParseChar(EscapeChar(c) + rest) == Some((c, |EscapeChar(c)|))
  {
    var n := c as int;
    if 0 <= n < 0x10000 {
      ParseUnicodeEscape(n, rest);
    }
  }

  lemma {:induction false} ParseEscaped(s: string, rest: string)
    ensures ParseString(Escape(s) + ("\"" + rest)) == Done(s, rest)
  {
    if s == [] {
      assert Escape(s) + ("\"" + rest) == "\"" + rest;
      assert ("\"" + rest)[1..] == rest;
    } else {
      var head, tail := EscapeChar(s[0]), Escape(s[1..]) + ("\"" + rest);
      assert Escape(s) + ("\"" + rest) == head + tail;
      ParseEscapedChar(s[0], tail);
      assert (head + tail)[|head|..] == tail;
      ParseEscaped(s[1..], rest);
      assert [s[0]] + s[1..] == s;
    }
  }

  lemma {:induction false} DigitRunAppend(s: string, rest: string)
    requires rest == "" || !IsDigit(rest[0])
    ensures DigitRun(s + rest) == DigitRun(s)
  {
    if s == "" {
      assert s + rest == rest;
    } else if IsDigit(s[0]) {
      assert (s + rest)[1..] == s[1..] + rest;
      DigitRunAppend(s[1..], rest);
    }
  }

  lemma SuffixAppend(s: string, rest: string, k: nat)
    requires k <= |s|
    ensures (s + rest)[k..] == s[k..] + rest
  {
  }

  lemma FractionAppend(s: string, rest: string)
    requires Ends(rest)
    ensures FractionLength(s + rest) == FractionLength(s)
  {
    if s == "" {
      assert s + rest == rest;
    } else {
      SuffixAppend(s, rest, 1);
      DigitRunAppend(s[1..], rest);
    }
  }

  lemma ExponentAppend(s: string, rest: string)
    requires Ends(rest)
    ensures ExponentLength(s + rest) == ExponentLength(s)
  {
    if s == "" {
      assert s + rest == rest;
    } else {
      var start := if |s| > 1 && (s[1] == '+' || s[1] == '-') then 2 else 1;
      SuffixAppend(s, rest, start);
      DigitRunAppend(s[start..], rest);
    }
  }

  lemma TailAppend(s: string, rest: string)
    requires Ends(rest)
    ensures TailLength(s + rest) == TailLength(s)
  {
    FractionAppend(s, rest);
    if FractionLength(s).Some? {
      SuffixAppend(s, rest, FractionLength(s).value);
      ExponentAppend(s[FractionLength(s).value..], rest);
    }
  }

  lemma IntegerAppend(s: string, rest: string)
    requires Ends(rest) && s != ""
    ensures IntegerLength(s + rest) == IntegerLength(s)
  {
    DigitRunAppend(s, rest);
  }

  lemma NumberParts(s: string, digits: string, i: nat, t: nat)
    requires s[SignLength(s)..] == digits && IntegerLength(digits) == Some(i) && TailLength(digits[i..]) == Some(t)
    ensures NumberLength(s) == Some(SignLength(s) + i + t)
  {
  }

  lemma NumberAppend(s: string, rest: string)
    requires NumberLength(s) == Some(|s|) && Ends(rest)
    ensures NumberLength(s + rest) == Some(|s|)
  {
    var sign := SignLength(s);
    var digits := s[sign..];
    var i := IntegerLength(digits).value;
    SuffixAppend(s, rest, sign);
    IntegerAppend(digits, rest);
    SuffixAppend(digits, rest, i);
    TailAppend(digits[i..], rest);
    assert SignLength(s + rest) == sign && (s + rest)[sign..] == digits + rest;
    assert TailLength((digits + rest)[i..]) == TailLength(digits[i..]);
    NumberParts(s + rest, digits + rest, i, TailLength(digits[i..]).value);
  }

  lemma NumberStart(s: string)
    requires NumberLength(s).Some?
    ensures s[0] == '-' || IsDigit(s[0])
  {
  }

  /** A printed value starts with a character that is neither white space nor a closing bracket. */
  lemma PrintStart(j: Json, depth: nat)
    requires Printable(j, depth)
    ensures Print(j) != "" && !IsSpace(Print(j)[0]) && Print(j)[0] != ']' && Print(j)[0] != '}'
  {
    if j.Number? {
      NumberStart(j.literal);
    }
  }

  lemma ParseQuoted(text: string, rest: string)
    ensures Quote(text) + rest == "\"" + (Escape(text) + ("\"" + rest))
    ensures ParseString((Quote(text) + rest)[1..]) == Done(text, rest)
  {
    Reassociate("\"", Escape(text), "\"", rest);
    DropHead('"', Escape(text) + ("\"" + rest));
    ParseEscaped(text, rest);
  }

  lemma NumberDispatch(s: string, n: nat)
    requires NumberLength(s) == Some(n)
    ensures ParseScalar(s) == Done(Number(s[..n]), s[n..])
  {
    NumberStart(s);
    assert s[0] != '"' && s[0] != 'n' && s[0] != 't' && s[0] != 'f';
  }

  lemma Halves(s: string, t: string)
    ensures (s + t)[..|s|] == s && (s + t)[|s|..] == t
  {
  }

  lemma ParsePrintNumber(literal: string, rest: string)
    requires NumberLength(literal) == Some(|literal|) && Ends(rest)
    ensures ParseScalar(literal + rest) == Done(Number(literal), rest)
  {
    NumberAppend(literal, rest);
    NumberDispatch(literal + rest, |literal|);
    Halves(literal, rest);
  }

  lemma ParsePrintLiteral(j: Json, rest: string)
    requires j.Null? || j.Bool?
    ensures ParseScalar(Print(j) + rest) == Done(j, rest)
  {
    var t := Print(j) + rest;
    assert t[0] == Print(j)[0] && t[|Print(j)|..] == rest;
    assert Print(j) <= t;
  }

  lemma ParsePrintScalar(j: Json, rest: string, depth: nat)
    requires Printable(j, depth) && Ends(rest) && !j.Array? && !j.Object?
    ensures ParseScalar(Print(j) + rest) == Done(j, rest)
    ensures Print(j)[0] != '{' && Print(j)[0] != '['
  {
    match j
    case Number(literal) =>
      NumberStart(literal);
      ParsePrintNumber(literal, rest);
    case Str(text) =>
      ParseQuoted(text, rest);
    case _ =>
      ParsePrintLiteral(j, rest);
  }

  lemma ParseDispatch(s: string, depth: nat)
    requires s != "" && !IsSpace(s[0])
    ensures s[0] == '[' && depth > 0 ==> ParseValue(s, depth) == ParseArray(s[1..], depth - 1)
    ensures s[0] == '{' && depth > 0 ==> ParseValue(s, depth) == ParseObject(s[1..], depth - 1)
    ensures s[0] != '[' && s[0] != '{' ==> ParseValue(s, depth) == ParseScalar(s)
  {
    assert SkipSpace(s) == s;
  }

  lemma ParseItemsStep(s: string, item: Json, rest: string, depth: nat)
    requires rest != "" && ParseValue(s, depth) == Done(item, rest)
    ensures rest[0] == ']' ==> ParseItems(s, depth) == Done([item], rest[1..])
    ensures rest[0] == ',' && ParseItems(rest[1..], depth).Done? ==>
              ParseItems(s, depth) == Done([item] + ParseItems(rest[1..], depth).value, ParseItems(rest[1..], depth).rest)
  {
    assert !IsSpace(rest[0]) ==> SkipSpace(rest) == rest;
  }

  lemma ParseFieldStep(key: string, s: string, depth: nat)
    requires ParseValue(s, depth).Done?
    ensures ParseField(Quote(key) + (":" + s), depth) ==
            Done(Field(key, ParseValue(s, depth).value), ParseValue(s, depth).rest)
  {
    var afterKey := ":" + s;
    ParseQuoted(key, afterKey);
    var k := Quote(key) + afterKey;
    assert SkipSpace(k) == k && SkipSpace(afterKey) == afterKey && afterKey[1..] == s;
  }

  lemma ParseFieldsStep(s: string, field: Field, rest: string, depth: nat)
    requires rest != "" && ParseField(s, depth) == Done(field, rest)
    ensures rest[0] == '}' ==> ParseFields(s, depth) == Done([field], rest[1..])
    ensures rest[0] == ',' && ParseFields(rest[1..], depth).Done? ==>
              ParseFields(s, depth) == Done([field] + ParseFields(rest[1..], depth).value, ParseFields(rest[1..], depth).rest)
  {
    assert !IsSpace(rest[0]) ==> SkipSpace(rest) == rest;
  }

  lemma {:induction false} ParsePrintValue(j: Json, rest: string, depth: nat)
    requires Printable(j, depth) && Ends(rest)
    ensures ParseValue(Print(j) + rest, depth) == Done(j, rest)
    decreases j, 0
  {
    PrintStart(j, depth);
    ParseDispatch(Print(j) + rest, depth);
    match j
    case Array(items) =>
      Reassociate("[", PrintItems(items), "]", rest);
      DropHead('[', PrintItems(items) + ("]" + rest));
      ParsePrintArray(items, rest, depth - 1);
    case Object(fields) =>
      Reassociate("{", PrintFields(fields), "}", rest);
      DropHead('{', PrintFields(fields) + ("}" + rest));
      ParsePrintObject(fields, rest, depth - 1);
    case _ =>
      ParsePrintScalar(j, rest, depth);
  }

  lemma {:induction false} ParsePrintArray(items: seq<Json>, rest: string, depth: nat)
    requires forall i :: 0 <= i < |items| ==> Printable(items[i], depth)
    ensures ParseArray(PrintItems(items) + ("]" + rest), depth) == Done(Array(items), rest)
    decreases items, 2
  {
    DropHead(']', rest);
    if items == [] {
      assert PrintItems(items) + ("]" + rest) == "]" + rest;
    } else {
      PrintStart(items[0], depth);
      assert PrintItems(items)[0] == Print(items[0])[0];
      ParsePrintItems(items, rest, depth);
    }
  }

  /** One item, a comma and the items after it. */
  lemma ItemsGlue(head: string, others: string, last: string, first: Json, items: seq<Json>, rest: string, depth: nat)
    requires ParseValue(head + ("," + (others + last)), depth) == Done(first, "," + (others + last))
    requires ParseItems(others + last, depth) == Done(items, rest)
    ensures ParseItems((head + "," + others) + last, depth) == Done([first] + items, rest)
  {
    var tail := others + last;
    DropHead(',', tail);
    ParseItemsStep(head + ("," + tail), first, "," + tail, depth);
    Reassociate(head, ",", others, last);
  }

  lemma {:induction false} ParsePrintItems(items: seq<Json>, rest: string, depth: nat)
    requires items != [] && forall i :: 0 <= i < |items| ==> Printable(items[i], depth)
    ensures ParseItems(PrintItems(items) + ("]" + rest), depth) == Done(items, rest)
    decreases items, 1
  {
    var last := "]" + rest;
    DropHead(']', rest);
    if |items| == 1 {
      ParsePrintValue(items[0], last, depth);
      ParseItemsStep(Print(items[0]) + last, items[0], last, depth);
      assert items == [items[0]];
    } else {
      var tail := PrintItems(items[1..]) + last;
      ParsePrintValue(items[0], "," + tail, depth);
      ParsePrintItems(items[1..], rest, depth);
      ItemsGlue(Print(items[0]), PrintItems(items[1..]), last, items[0], items[1..], rest, depth);
      assert items == [items[0]] + items[1..];
    }
  }

  lemma {:induction false} ParsePrintObject(fields: seq<Field>, rest: string, depth: nat)
    requires forall i :: 0 <= i < |fields| ==> Printable(fields[i].value, depth)
    ensures ParseObject(PrintFields(fields) + ("}" + rest), depth) == Done(Object(fields), rest)
    decreases fields, 2
  {
    DropHead('}', rest);
    if fields == [] {
      assert PrintFields(fields) + ("}" + rest) == "}" + rest;
    } else {
      FieldsStart(fields);
      ParsePrintFields(fields, rest, depth);
    }
  }

  lemma {:induction false} ParsePrintField(f: Field, rest: string, depth: nat)
    requires Printable(f.value, depth) && Ends(rest)
    ensures ParseField(PrintField(f) + rest, depth) == Done(f, rest)
    decreases f, 1
  {
    Reassociate(Quote(f.key), ":", Print(f.value), rest);
    ParsePrintValue(f.value, rest, depth);
    ParseFieldStep(f.key, Print(f.value) + rest, depth);
  }

  lemma FieldsGlue(head: string, others: string, last: string, first: Field, fields: seq<Field>, rest: string, depth: nat)
    requires ParseField(head + ("," + (others + last)), depth) == Done(first, "," + (others + last))
    requires ParseFields(others + last, depth) == Done(fields, rest)
    ensures ParseFields(head + "," + others + last, depth) == Done([first] + fields, rest)
  {
    DropHead(',', others + last);
    Reassociate(head, ",", others, last);
    ParseFieldsStep(head + ("," + (others + last)), first, "," + (others + last), depth);
  }

  lemma FieldsStart(fields: seq<Field>)
    requires fields != []
    ensures PrintFields(fields) != "" && PrintFields(fields)[0] == '"'
  {
  }

  lemma {:induction false} ParsePrintFields(fields: seq<Field>, rest: string, depth: nat)
    requires fields != [] && forall i :: 0 <= i < |fields| ==> Printable(fields[i].value, depth)
    ensures ParseFields(PrintFields(fields) + ("}" + rest), depth) == Done(fields, rest)
    decreases fields, 1
  {
    var last := "}" + rest;
    DropHead('}', rest);
    if |fields| == 1 {
      ParsePrintField(fields[0], last, depth);
      ParseFieldsStep(PrintField(fields[0]) + last, fields[0], last, depth);
      assert fields == [fields[0]];
    } else {
      ParsePrintField(fields[0], "," + (PrintFields(fields[1..]) + last), depth);
      ParsePrintFields(fields[1..], rest, depth);
      FieldsGlue(PrintField(fields[0]), PrintFields(fields[1..]), last, fields[0], fields[1..], rest, depth);
      assert fields == [fields[0]] + fields[1..];
    }
  }

  lemma ParsePrint(j: Json)
    requires Printable(j, MAX_DEPTH)
    ensures Parse(Print(j)) == Some(j)
  {
    ParsePrintValue(j, "", MAX_DEPTH);
    assert Print(j) + "" == Print(j);
  }

  lemma PrintInjective(j: Json, k: Json)
    requires Printable(j, MAX_DEPTH) && Printable(k, MAX_DEPTH)
    ensures Print(j) == Print(k) <==> j == k
  {
    ParsePrint(j);
    ParsePrint(k);
  }

  // ---------------------------------------------------------------- integers

  function DigitsValue(s: string): nat
    requires forall i :: 0 <= i < |s| ==> IsDigit(s[i])
  {
    if s == "" then 0
    else
      var last := s[|s| - 1];
      assert IsDigit(last);
      DigitsValue(s[..|s| - 1]) * 10 + (last as int - '0' as int)
  }

  /** strconv.ParseInt to 64 bits: a sign and digits only, within range. */
  function ParseInt64(s: string): Option<int64> {
    var digits := s[SignLength(s)..];
    if digits == "" || exists i :: 0 <= i < |digits| && !IsDigit(digits[i]) then None
    else
      var magnitude: int := DigitsValue(digits);
      var n: int := if s[0] == '-' then -magnitude else magnitude;
      if -0x8000_0000_0000_0000 <= n <= MAX_INT64 then Some(n) else None
  }

  function Magnitude(n: int): nat {
    if n < 0 then -n else n
  }

  lemma {:induction false} DigitsOfNat(n: nat)
    ensures forall i :: 0 <= i < |PrintNat(n)| ==> IsDigit(PrintNat(n)[i])
    ensures DigitsValue(PrintNat(n)) == n
    ensures |PrintNat(n)| > 1 ==> PrintNat(n)[0] != '0'
    ensures n > 0 ==> PrintNat(n)[0] != '0'
  {
    var s := PrintNat(n);
    if n >= 10 {
      DigitsOfNat(n / 10);
      assert s[..|s| - 1] == PrintNat(n / 10);
    } else {
      assert s[..|s| - 1] == "";
    }
  }

  lemma {:induction false} AllDigitsRun(s: string)
    requires forall i :: 0 <= i < |s| ==> IsDigit(s[i])
    ensures DigitRun(s) == |s|
  {
    if s != "" {
      AllDigitsRun(s[1..]);
    }
  }

  lemma PrintIntDigits(n: int)
    ensures PrintInt(n)[SignLength(PrintInt(n))..] == PrintNat(Magnitude(n))
    ensures (PrintInt(n)[0] == '-') <==> n < 0
  {
    DigitsOfNat(Magnitude(n));
    assert IsDigit(PrintNat(Magnitude(n))[0]);
  }

  lemma DigitsAreInteger(digits: string)
    requires digits != "" && (|digits| > 1 ==> digits[0] != '0')
    requires forall i :: 0 <= i < |digits| ==> IsDigit(digits[i])
    ensures IntegerLength(digits) == Some(|digits|)
  {
    AllDigitsRun(digits);
  }

  lemma IntegerIsNumber(s: string, digits: string)
    requires s[SignLength(s)..] == digits && IntegerLength(digits) == Some(|digits|)
    ensures NumberLength(s) == Some(|s|)
  {
    assert digits[|digits|..] == "";
    assert TailLength("") == Some(0);
  }

  lemma PrintIntIsLiteral(n: int)
    ensures NumberLength(PrintInt(n)) == Some(|PrintInt(n)|)
  {
    var digits := PrintNat(Magnitude(n));
    PrintIntDigits(n);
    DigitsOfNat(Magnitude(n));
    DigitsAreInteger(digits);
    IntegerIsNumber(PrintInt(n), digits);
  }

  lemma ParsePrintInt64(n: int64)
    ensures ParseInt64(PrintInt(n)) == Some(n)
  {
    PrintIntDigits(n);
    DigitsOfNat(Magnitude(n));
  }
}
