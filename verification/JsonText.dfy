/**
 * The text the JSON writer produces, beyond what reading it back says: no control, HTML or line
 * separator character appears in it, every space belongs to a string, and each character is
 * written in one way.
 */
module JsonText {
  import opened Base
  import opened Json

  /** Characters that json.Marshal writes as they are, inside strings or out. */
  predicate Plain(c: char) {
    c as int >= 0x20 && c != '<' && c != '>' && c != '&' && c as int != 0x2028 && c as int != 0x2029
  }

  ghost predicate AllPlain(s: string) {
    forall i :: 0 <= i < |s| ==> Plain(s[i])
  }

  function Spaces(s: string): nat {
    if s == "" then 0 else (if s[0] == ' ' then 1 else 0) + Spaces(s[1..])
  }

  /** The spaces in the strings of a value. */
  function SpacesIn(j: Json): nat
    decreases j, 0
  {
    match j
    case Str(text) => Spaces(text)
    case Array(items) => SpacesInItems(items)
    case Object(fields) => SpacesInFields(fields)
    case _ => 0
  }

  function SpacesInItems(items: seq<Json>): nat
    decreases items, 1
  {
    if items == [] then 0 else SpacesIn(items[0]) + SpacesInItems(items[1..])
  }

  function SpacesInFields(fields: seq<Field>): nat
    decreases fields, 1
  {
    if fields == [] then 0 else Spaces(fields[0].key) + SpacesIn(fields[0].value) + SpacesInFields(fields[1..])
  }

  /** Plain text with a number of spaces. */
  ghost predicate Neat(s: string, n: nat) {
    AllPlain(s) && Spaces(s) == n
  }

  lemma {:induction false} SpacesConcat(a: string, b: string)
    ensures Spaces(a + b) == Spaces(a) + Spaces(b)
  {
    if a == "" {
      assert a + b == b;
    } else {
      assert (a + b)[1..] == a[1..] + b;
      SpacesConcat(a[1..], b);
    }
  }

  lemma NeatConcat(a: string, m: nat, b: string, n: nat)
    requires Neat(a, m) && Neat(b, n)
    ensures Neat(a + b, m + n)
  {
    SpacesConcat(a, b);
  }

  // ---------------------------------------------------------------- strings

  /** How each character is written: quotation mark, backslash and the common controls in short form, other specials as four lower-case hexadecimal digits. */
  lemma EscapeTable()
    ensures EscapeChar('"') == "\\\"" && EscapeChar('\\') == "\\\\"
    ensures EscapeChar('\n') == "\\n" && EscapeChar('\r') == "\\r" && EscapeChar('\t') == "\\t"
    ensures EscapeChar(8 as char) == "\\b" && EscapeChar(12 as char) == "\\f"
    ensures EscapeChar('<') == "\\u003c" && EscapeChar('>') == "\\u003e" && EscapeChar('&') == "\\u0026"
    ensures EscapeChar(0 as char) == "\\u0000" && EscapeChar(0x1f as char) == "\\u001f"
    ensures EscapeChar(0x2028 as char) == "\\u2028" && EscapeChar(0x2029 as char) == "\\u2029"
    ensures forall c: char :: Plain(c) && c != '"' && c != '\\' ==> EscapeChar(c) == [c]
  {
  }

  lemma EscapedChar(c: char)
    ensures Neat(EscapeChar(c), if c == ' ' then 1 else 0)
  {
    var s := EscapeChar(c);
    if |s| == 1 {
      assert s[1..] == "";
    } else if |s| == 2 {
      assert s == [s[0]] + [s[1]];
      SpacesConcat([s[0]], [s[1]]);
      OneChar(s[0]);
      OneChar(s[1]);
    } else {
      SixChars(s);
    }
  }

  lemma OneChar(c: char)
    ensures Spaces([c]) == if c == ' ' then 1 else 0
  {
    assert [c][1..] == "";
  }

  lemma {:induction false} NoSpaces(s: string)
    requires forall i :: 0 <= i < |s| ==> s[i] != ' '
    ensures Spaces(s) == 0
  {
    if s != "" {
      NoSpaces(s[1..]);
    }
  }

  lemma SixChars(s: string)
    requires exists n :: 0 <= n < 0x10000 && s == UnicodeEscape(n)
    ensures Neat(s, 0)
  {
    NoSpaces(s);
  }

  lemma {:induction false} EscapedString(s: string)
    ensures Neat(Escape(s), Spaces(s))
  {
    if s != "" {
      EscapedChar(s[0]);
      EscapedString(s[1..]);
      NeatConcat(EscapeChar(s[0]), if s[0] == ' ' then 1 else 0, Escape(s[1..]), Spaces(s[1..]));
    }
  }

  lemma Quoted(s: string)
    ensures Neat(Quote(s), Spaces(s))
  {
    EscapedString(s);
    OneChar('"');
    NeatConcat("\"", 0, Escape(s), Spaces(s));
    NeatConcat("\"" + Escape(s), Spaces(s), "\"", 0);
  }

  // ---------------------------------------------------------------- numbers

  predicate NumberChar(c: char) {
    IsDigit(c) || c == '-' || c == '+' || c == '.' || c == 'e' || c == 'E'
  }

  lemma {:induction false} DigitRunChars(s: string, i: nat)
    requires i < DigitRun(s)
    ensures IsDigit(s[i])
  {
    if i > 0 {
      DigitRunChars(s[1..], i - 1);
    }
  }

  lemma IntegerChars(s: string, i: nat)
    requires IntegerLength(s).Some? && i < IntegerLength(s).value
    ensures NumberChar(s[i])
  {
    if s[0] != '0' {
      DigitRunChars(s, i);
    }
  }

  lemma FractionChars(s: string, i: nat)
    requires FractionLength(s).Some? && i < FractionLength(s).value
    ensures NumberChar(s[i])
  {
    if i > 0 {
      DigitRunChars(s[1..], i - 1);
    }
  }

  lemma ExponentChars(s: string, i: nat)
    requires ExponentLength(s).Some? && i < ExponentLength(s).value
    ensures NumberChar(s[i])
  {
    var start := if |s| > 1 && (s[1] == '+' || s[1] == '-') then 2 else 1;
    if i >= start {
      DigitRunChars(s[start..], i - start);
      assert s[start..][i - start] == s[i];
    }
  }

  lemma TailChars(s: string, i: nat)
    requires TailLength(s).Some? && i < TailLength(s).value
    ensures NumberChar(s[i])
  {
    var f := FractionLength(s).value;
    if i < f {
      FractionChars(s, i);
    } else {
      ExponentChars(s[f..], i - f);
      assert s[f..][i - f] == s[i];
    }
  }

  lemma NumberChars(s: string, k: nat)
    requires NumberLength(s).Some? && k < NumberLength(s).value
    ensures NumberChar(s[k])
  {
    var sign := SignLength(s);
    var digits := s[sign..];
    var i := IntegerLength(digits).value;
    if k >= sign {
      assert s[k] == digits[k - sign];
      if k - sign < i {
        IntegerChars(digits, k - sign);
      } else {
        TailChars(digits[i..], k - sign - i);
        assert digits[i..][k - sign - i] == digits[k - sign];
      }
    }
  }

  lemma NumberIsNeat(s: string)
    requires NumberLength(s) == Some(|s|)
    ensures Neat(s, 0)
  {
    forall k | 0 <= k < |s| ensures NumberChar(s[k]) {
      NumberChars(s, k);
    }
    NoSpaces(s);
  }

  // ---------------------------------------------------------------- values

  /** Printed text is plain, and its spaces are those of its strings. */
  lemma {:induction false} PrintIsNeat(j: Json, depth: nat)
    requires Printable(j, depth)
    ensures Neat(Print(j), SpacesIn(j))
    decreases j, 0
  {
    match j
    case Null => NoSpaces("null");
    case Bool(b) => NoSpaces(if b then "true" else "false");
    case Number(literal) => NumberIsNeat(literal);
    case Str(text) => Quoted(text);
    case Array(items) =>
      ItemsAreNeat(items, depth - 1);
      Wrapped("[", PrintItems(items), "]", SpacesInItems(items));
    case Object(fields) =>
      FieldsAreNeat(fields, depth - 1);
      Wrapped("{", PrintFields(fields), "}", SpacesInFields(fields));
  }

  lemma Wrapped(a: string, s: string, b: string, n: nat)
    requires Neat(s, n) && |a| == |b| == 1 && Plain(a[0]) && Plain(b[0]) && a[0] != ' ' && b[0] != ' '
    ensures Neat(a + s + b, n)
  {
    NoSpaces(a);
    NoSpaces(b);
    NeatConcat(a, 0, s, n);
    NeatConcat(a + s, n, b, 0);
  }

  lemma {:induction false} ItemsAreNeat(items: seq<Json>, depth: nat)
    requires forall i :: 0 <= i < |items| ==> Printable(items[i], depth)
    ensures Neat(PrintItems(items), SpacesInItems(items))
    decreases items, 1
  {
    if items != [] {
      PrintIsNeat(items[0], depth);
      ItemsAreNeat(items[1..], depth);
      if |items| > 1 {
        NoSpaces(",");
        NeatConcat(Print(items[0]), SpacesIn(items[0]), ",", 0);
        NeatConcat(Print(items[0]) + ",", SpacesIn(items[0]), PrintItems(items[1..]), SpacesInItems(items[1..]));
      }
    }
  }

  lemma {:induction false} FieldsAreNeat(fields: seq<Field>, depth: nat)
    requires forall i :: 0 <= i < |fields| ==> Printable(fields[i].value, depth)
    ensures Neat(PrintFields(fields), SpacesInFields(fields))
    decreases fields, 1
  {
    if fields != [] {
      var f := fields[0];
      var n := Spaces(f.key) + SpacesIn(f.value);
      PrintIsNeat(f.value, depth);
      FieldIsNeat(f);
      FieldsAreNeat(fields[1..], depth);
      if |fields| > 1 {
        NoSpaces(",");
        NeatConcat(PrintField(f), n, ",", 0);
        NeatConcat(PrintField(f) + ",", n, PrintFields(fields[1..]), SpacesInFields(fields[1..]));
      }
    }
  }

  lemma FieldIsNeat(f: Field)
    requires Neat(Print(f.value), SpacesIn(f.value))
    ensures Neat(PrintField(f), Spaces(f.key) + SpacesIn(f.value))
  {
    Quoted(f.key);
    NoSpaces(":");
    NeatConcat(Quote(f.key), Spaces(f.key), ":", 0);
    NeatConcat(Quote(f.key) + ":", Spaces(f.key), Print(f.value), SpacesIn(f.value));
  }
}
