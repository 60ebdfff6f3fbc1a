/** JSON text as the program writes it, and as section 7 of RFC 8259 reads it back. */
module JsonText {
  import opened Prelude

  // ----- writing -----

  function HexDigit(d: nat): char
    requires d < 16
  {
    if d < 10 then ('0' as nat + d) as char else ('a' as nat + d - 10) as char
  }

  function Hex4(n: nat): (h: string)
    requires n < 0x10000
    ensures |h| == 4 && forall i :: 0 <= i < 4 ==> '0' <= h[i] <= '9' || 'a' <= h[i] <= 'f'
  {
    [HexDigit(n / 0x1000), HexDigit(n / 0x100 % 16), HexDigit(n / 0x10 % 16), HexDigit(n % 16)]
  }

  function UnicodeEscape(c: char): string
    requires c as nat < 0x10000
  {
    "\\u" + Hex4(c as nat)
  }

  /** The characters a serializer that escapes only C0 controls leaves raw. */
  predicate NeedsLineSafeEscape(c: char) {
    0x7f <= c as nat <= 0x9f || c as nat == 0x2028 || c as nat == 0x2029
  }

  /** The two-character escapes, shared by every serializer. */
  function ShortEscape(c: char): Option<string> {
    if c == '"' then Some("\\\"")
    else if c == '\\' then Some("\\\\")
    else if c == '\n' then Some("\\n")
    else if c == '\r' then Some("\\r")
    else if c == '\t' then Some("\\t")
    else if c as nat == 0x08 then Some("\\b")
    else if c as nat == 0x0c then Some("\\f")
    else None
  }

  function EscapedChar(c: char): string {
    if ShortEscape(c).Some? then ShortEscape(c).value
    else if (c as nat) < 0x20 || NeedsLineSafeEscape(c) then UnicodeEscape(c)
    else [c]
  }

  function Escaped(s: string): string {
    if s == [] then [] else EscapedChar(s[0]) + Escaped(s[1..])
  }

  function SafeChar(c: char): string {
    if NeedsLineSafeEscape(c) then UnicodeEscape(c) else [c]
  }

  function LineSafe(s: string): string {
    if s == [] then [] else SafeChar(s[0]) + LineSafe(s[1..])
  }

  /** A serializer that escapes what RFC 8259 requires and no more. */
  function MinimalChar(c: char): string {
    if ShortEscape(c).Some? then ShortEscape(c).value
    else if (c as nat) < 0x20 then UnicodeEscape(c)
    else [c]
  }

  function Minimal(s: string): string {
    if s == [] then [] else MinimalChar(s[0]) + Minimal(s[1..])
  }

  method JsonEscape(value: string) returns (out: string)
    ensures out == ['"'] + Escaped(value) + ['"']
  {
    out := ['"'];
    assert value[0..] == value;
    for i := 0 to |value|
      invariant out + Escaped(value[i..]) == ['"'] + Escaped(value)
    {
      assert value[i..][1..] == value[i + 1..];
      Regroup(out, EscapedChar(value[i]), Escaped(value[i + 1..]));
      out := AppendEscaped(out, value[i]);
    }
    assert out + [] == out;
    out := out + ['"'];
  }

  method AppendEscaped(before: string, ch: char) returns (out: string)
    ensures out == before + EscapedChar(ch)
  {
    if ch == '"' { out := before + "\\\""; }
    else if ch == '\\' { out := before + "\\\\"; }
    else if ch == '\n' { out := before + "\\n"; }
    else if ch == '\r' { out := before + "\\r"; }
    else if ch == '\t' { out := before + "\\t"; }
    else if ch as nat == 0x08 { out := before + "\\b"; }
    else if ch as nat == 0x0c { out := before + "\\f"; }
    else if (ch as nat) < 0x20 || 0x7f <= ch as nat <= 0x9f || ch as nat == 0x2028 || ch as nat == 0x2029 {
      out := before + UnicodeEscape(ch);
    }
    else { out := before + [ch]; }
  }

  method JsonLineSafe(json: string) returns (out: string)
    ensures out == LineSafe(json)
  {
    var first := 0;
    while first < |json| && !NeedsLineSafeEscape(json[first])
      invariant first <= |json|
      invariant forall i :: 0 <= i < first ==> !NeedsLineSafeEscape(json[i])
    {
      first := first + 1;
    }
    SafeIsUnchanged(json[..first]);
    assert json == json[..first] + json[first..];
    SafeConcat(json[..first], json[first..]);
    if first == |json| {
      assert json[..first] == json;
      return json;
    }
    out := AppendSafe(json[..first], json[first..]);
  }

  method AppendSafe(before: string, text: string) returns (out: string)
    ensures out == before + LineSafe(text)
  {
    out := before;
    assert text[0..] == text;
    for i := 0 to |text|
      invariant out + LineSafe(text[i..]) == before + LineSafe(text)
    {
      assert text[i..][1..] == text[i + 1..];
      Regroup(out, SafeChar(text[i]), LineSafe(text[i + 1..]));
      if NeedsLineSafeEscape(text[i]) {
        out := out + UnicodeEscape(text[i]);
      } else {
        out := out + [text[i]];
      }
    }
    assert out + [] == out;
  }

  // ----- reading: RFC 8259 section 7 -----

  function HexValue(c: char): (v: Option<nat>)
    ensures v.Some? ==> v.value < 16
  {
    if '0' <= c <= '9' then Some(c as nat - '0' as nat)
    else if 'a' <= c <= 'f' then Some(c as nat - 'a' as nat + 10)
    else if 'A' <= c <= 'F' then Some(c as nat - 'A' as nat + 10)
    else None
  }

  /** The code unit of the four hexadecimal digits that start `s`. */
  function CodeUnit(s: string): (u: Option<nat>)
    ensures u.Some? ==> u.value < 0x10000
  {
    if |s| < 4 then None else
      var (a, b, c, d) := (HexValue(s[0]), HexValue(s[1]), HexValue(s[2]), HexValue(s[3]));
      if a.Some? && b.Some? && c.Some? && d.Some?
      then Some(((a.value * 16 + b.value) * 16 + c.value) * 16 + d.value) else None
  }

  function Unescape(c: char): Option<char> {
    if c == '"' || c == '\\' || c == '/' then Some(c)
    else if c == 'b' then Some(0x08 as char)
    else if c == 'f' then Some(0x0c as char)
    else if c == 'n' then Some('\n')
    else if c == 'r' then Some('\r')
    else if c == 't' then Some('\t')
    else None
  }

  /** The short escapes the grammar has, and what each stands for. */
  lemma ShortEscapesAreTheGrammars(c: char)
    ensures Unescape(c).Some? <==> c in "\"\\/bfnrt"
    ensures var code := if c == 'b' then 0x08 else if c == 'f' then 0x0c else if c == 'n' then 0x0a
                        else if c == 'r' then 0x0d else if c == 't' then 0x09 else c as nat;
            Unescape(c).Some? ==> Unescape(c).value as nat == code
  {}

  /** One character of a string literal and how many characters spell it. A surrogate outside a
      pair has no meaning. */
  function ReadChar(s: string): (r: Option<(char, nat)>)
    ensures r.Some? ==> 0 < r.value.1 <= |s|
  {
    if s == [] || s[0] == '"' || (s[0] as nat) < 0x20 then None
    else if s[0] != '\\' then Some((s[0], 1))
    else if |s| < 2 then None
    else if s[1] != 'u' then
      if Unescape(s[1]).Some? then Some((Unescape(s[1]).value, 2)) else None
    else
      var u := CodeUnit(s[2..]);
      if u.None? then None
      else if u.value < 0xD800 || 0xE000 <= u.value then Some((u.value as char, 6))
      else if u.value < 0xDC00 && |s| >= 12 && s[6] == '\\' && s[7] == 'u' then
        var v := CodeUnit(s[8..]);
        if v.Some? && 0xDC00 <= v.value < 0xE000
        then Some(((0x10000 + (u.value - 0xD800) * 0x400 + (v.value - 0xDC00)) as char, 12)) else None
      else None
  }

  /** The value of the literal whose opening quote stands before `s`, and what follows its
      closing quote. */
  function ReadString(s: string): (r: Option<(string, string)>)
    ensures r.Some? ==> |r.value.1| < |s|
    decreases |s|
  {
    if s != [] && s[0] == '"' then Some(([], s[1..])) else
      var c := ReadChar(s);
      if c.None? then None else
        var r := ReadString(s[c.value.1..]);
        if r.None? then None else Some(([c.value.0] + r.value.0, r.value.1))
  }

  /** The parts of a JSON text: string literals by value, everything else by character. */
  datatype Token = Str(value: string) | Mark(c: char)

  /** The characters that can stand outside a string literal: white space, structure, numbers and
      the letters of `true`, `false` and `null`. */
  predicate Outside(c: char) {
    || c == ' ' || c == '\t' || c == '\n' || c == '\r'
    || c == '[' || c == ']' || c == '{' || c == '}' || c == ':' || c == ','
    || '0' <= c <= '9' || c == '-' || c == '+' || c == '.' || c == 'E'
    || c == 't' || c == 'r' || c == 'u' || c == 'e' || c == 'f' || c == 'a' || c == 'l' || c == 's' || c == 'n'
  }

  function Tokens(s: string): Option<seq<Token>>
    decreases |s|
  {
    if s == [] then Some([])
    else if s[0] == '"' then
      var r := ReadString(s[1..]);
      if r.None? then None else
        var rest := Tokens(r.value.1);
        if rest.None? then None else Some([Str(r.value.0)] + rest.value)
    else if Outside(s[0]) then
      var rest := Tokens(s[1..]);
      if rest.None? then None else Some([Mark(s[0])] + rest.value)
    else None
  }

  // ----- round trip -----

  lemma HexReads(d: nat)
    requires d < 16
    ensures HexValue(HexDigit(d)) == Some(d)
  {}

  lemma Hex4Reads(n: nat, rest: string)
    requires n < 0x10000
    ensures CodeUnit(Hex4(n) + rest) == Some(n)
  {
    hide HexDigit, HexValue;
    var a, b, c, d := n / 0x1000, n / 0x100 % 16, n / 0x10 % 16, n % 16;
    HexDigitsSum(n);
    HexReads(a);
    HexReads(b);
    HexReads(c);
    HexReads(d);
  }

  lemma HexDigitsSum(n: nat)
    requires n < 0x10000
    ensures ((n / 0x1000 * 16 + n / 0x100 % 16) * 16 + n / 0x10 % 16) * 16 + n % 16 == n
  {
    assert n / 0x1000 == n / 0x100 / 16 && n / 0x100 == n / 0x10 / 16;
  }

  lemma UnicodeEscapeReads(c: char, rest: string)
    requires c as nat < 0x10000
    ensures ReadChar(UnicodeEscape(c) + rest) == Some((c, 6))
  {
    hide Hex4, CodeUnit;
    var s := UnicodeEscape(c) + rest;
    assert s[0] == '\\' && s[1] == 'u';
    assert s[2..] == Hex4(c as nat) + rest;
    Hex4Reads(c as nat, rest);
  }

  lemma EscapedCharReads(c: char, rest: string)
    ensures ReadChar(EscapedChar(c) + rest) == Some((c, |EscapedChar(c)|))
    ensures (EscapedChar(c) + rest)[0] != '"'
  {
    if ShortEscape(c).None? && EscapedChar(c) != [c] {
      UnicodeEscapeReads(c, rest);
    }
  }

  /** Every string comes back from its escaping, whatever follows the literal. */
  lemma {:induction false} EscapeRoundTrip(s: string, rest: string)
    ensures ReadString(Escaped(s) + ['"'] + rest) == Some((s, rest))
  {
    hide EscapedChar, ReadChar;
    var text := Escaped(s) + ['"'] + rest;
    if s == [] {
      assert text == ['"'] + rest && text[1..] == rest;
    } else {
      var tail := Escaped(s[1..]) + ['"'] + rest;
      EscapeRoundTrip(s[1..], rest);
      assert text == EscapedChar(s[0]) + tail;
      EscapedCharReads(s[0], tail);
      assert text[|EscapedChar(s[0])|..] == tail;
      assert [s[0]] + s[1..] == s;
    }
  }

  /** The text `json_escape` writes reads as the one string it was given. */
  lemma EscapeIsOneToken(s: string)
    ensures Tokens(['"'] + Escaped(s) + ['"']) == Some([Str(s)])
  {
    EscapeRoundTrip(s, []);
    var text := ['"'] + Escaped(s) + ['"'];
    assert text[1..] == Escaped(s) + ['"'] + [];
    assert Tokens([]) == Some([]);
    assert [Str(s)] + [] == [Str(s)];
  }

  // ----- line safety -----

  lemma {:induction false} SafeConcat(a: string, b: string)
    ensures LineSafe(a + b) == LineSafe(a) + LineSafe(b)
  {
    hide SafeChar;
    if a == [] {
      assert a + b == b;
    } else {
      SafeConcat(a[1..], b);
      assert (a + b)[1..] == a[1..] + b;
      Regroup(SafeChar(a[0]), LineSafe(a[1..]), LineSafe(b));
    }
  }

  lemma {:induction false} SafeIsUnchanged(s: string)
    requires forall i :: 0 <= i < |s| ==> !NeedsLineSafeEscape(s[i])
    ensures LineSafe(s) == s
  {
    if s != [] { SafeIsUnchanged(s[1..]); }
  }

  lemma {:induction false} SafeHasNone(s: string)
    ensures forall i :: 0 <= i < |LineSafe(s)| ==> !NeedsLineSafeEscape(LineSafe(s)[i])
  {
    hide Hex4;
    if s != [] {
      SafeHasNone(s[1..]);
      var head := SafeChar(s[0]);
      assert forall i :: 0 <= i < |head| ==> !NeedsLineSafeEscape(head[i]);
    }
  }

  /** Making a text line-safe twice is making it line-safe once. */
  lemma LineSafeIdempotent(s: string)
    ensures LineSafe(LineSafe(s)) == LineSafe(s)
  {
    SafeHasNone(s);
    SafeIsUnchanged(LineSafe(s));
  }

  /** A character that has a meaning keeps it. */
  lemma SafeReadsChar(s: string)
    requires ReadChar(s).Some?
    ensures ReadChar(LineSafe(s)).Some?
    ensures ReadChar(LineSafe(s)).value.0 == ReadChar(s).value.0
    ensures LineSafe(s)[ReadChar(LineSafe(s)).value.1..] == LineSafe(s[ReadChar(s).value.1..])
    ensures LineSafe(s)[0] != '"'
  {
    if NeedsLineSafeEscape(s[0]) {
      RawCharIsEscaped(s);
    } else {
      SpellingIsSafe(s);
    }
  }

  lemma RawCharIsEscaped(s: string)
    requires s != [] && NeedsLineSafeEscape(s[0])
    ensures ReadChar(s) == Some((s[0], 1))
    ensures ReadChar(LineSafe(s)) == Some((s[0], 6))
    ensures LineSafe(s)[6..] == LineSafe(s[1..]) && LineSafe(s)[0] != '"'
  {
    hide Hex4, ReadString;
    UnicodeEscapeReads(s[0], LineSafe(s[1..]));
    assert LineSafe(s) == UnicodeEscape(s[0]) + LineSafe(s[1..]);
  }

  lemma SpellingIsSafe(s: string)
    requires ReadChar(s).Some? && !NeedsLineSafeEscape(s[0])
    ensures var k := ReadChar(s).value.1;
            ReadChar(LineSafe(s)) == ReadChar(s) && LineSafe(s)[k..] == LineSafe(s[k..]) && LineSafe(s)[0] == s[0]
  {
    var k := ReadChar(s).value.1;
    SpellingIsPlain(s);
    assert s == s[..k] + s[k..];
    SafeConcat(s[..k], s[k..]);
    SafeIsUnchanged(s[..k]);
    ReadCharPrefix(s, k, LineSafe(s[k..]));
  }

  lemma SpellingIsPlain(s: string)
    requires ReadChar(s).Some? && !NeedsLineSafeEscape(s[0])
    ensures forall i :: 0 <= i < ReadChar(s).value.1 ==> !NeedsLineSafeEscape(s[i])
  {
    var k := ReadChar(s).value.1;
    if k >= 6 { CodeUnitIsPlain(s[2..]); }
    if k == 12 { CodeUnitIsPlain(s[8..]); }
    assert k >= 6 ==> forall i :: 2 <= i < 6 ==> s[i] == s[2..][i - 2];
    assert k == 12 ==> forall i :: 8 <= i < 12 ==> s[i] == s[8..][i - 8];
  }

  lemma CodeUnitIsPlain(s: string)
    requires CodeUnit(s).Some?
    ensures forall i :: 0 <= i < 4 ==> !NeedsLineSafeEscape(s[i])
  {}

  /** A character's spelling is its own; what follows does not matter. */
  lemma ReadCharPrefix(s: string, k: nat, rest: string)
    requires ReadChar(s).Some? && ReadChar(s).value.1 == k
    ensures ReadChar(s[..k] + rest) == ReadChar(s)
  {
    var t := s[..k] + rest;
    assert forall i :: 0 <= i < k ==> t[i] == s[i];
    if k >= 6 {
      CodeUnitSame(s[2..], t[2..]);
    }
    if k == 12 {
      CodeUnitSame(s[8..], t[8..]);
    }
  }

  lemma CodeUnitSame(a: string, b: string)
    requires |a| >= 4 && |b| >= 4 && a[0] == b[0] && a[1] == b[1] && a[2] == b[2] && a[3] == b[3]
    ensures CodeUnit(a) == CodeUnit(b)
  {}

  lemma {:induction false} SafeReadsString(s: string)
    requires ReadString(s).Some?
    ensures ReadString(LineSafe(s)) == Some((ReadString(s).value.0, LineSafe(ReadString(s).value.1)))
    decreases |s|
  {
    if s[0] == '"' {
      assert LineSafe(s) == ['"'] + LineSafe(s[1..]);
      assert LineSafe(s)[1..] == LineSafe(s[1..]);
    } else {
      SafeReadsChar(s);
      SafeReadsString(s[ReadChar(s).value.1..]);
    }
  }

  /** Line safety changes no JSON text's tokens, so the document it spells is the same. */
  lemma {:induction false} LineSafeKeepsTokens(s: string)
    requires Tokens(s).Some?
    ensures Tokens(LineSafe(s)) == Tokens(s)
    decreases |s|
  {
    hide ReadString, UnicodeEscape;
    if s != [] {
      assert LineSafe(s) == [s[0]] + LineSafe(s[1..]);
      assert LineSafe(s)[1..] == LineSafe(s[1..]);
      if s[0] == '"' {
        SafeReadsString(s[1..]);
        LineSafeKeepsTokens(ReadString(s[1..]).value.1);
      } else {
        LineSafeKeepsTokens(s[1..]);
      }
    }
  }

  /** Made line-safe, the text of a serializer that escapes the minimum is `json_escape`'s own. */
  lemma {:induction false} LineSafeCompletesMinimal(s: string)
    ensures LineSafe(Minimal(s)) == Escaped(s)
  {
    if s != [] {
      LineSafeCompletesMinimal(s[1..]);
      SafeConcat(MinimalChar(s[0]), Minimal(s[1..]));
      CharCompletes(s[0]);
    }
  }

  lemma CharCompletes(c: char)
    ensures LineSafe(MinimalChar(c)) == EscapedChar(c)
  {
    if NeedsLineSafeEscape(c) {
      assert MinimalChar(c) == [c] && [c][1..] == [];
      assert LineSafe([c]) == UnicodeEscape(c) + [];
    } else {
      assert forall i :: 0 <= i < |MinimalChar(c)| ==> !NeedsLineSafeEscape(MinimalChar(c)[i]);
      SafeIsUnchanged(MinimalChar(c));
    }
  }

  /** An escaped string is one line of a terminal: no control, DEL, C1 or separator character. */
  lemma {:induction false} EscapedIsOneLine(s: string)
    ensures forall i :: 0 <= i < |Escaped(s)| ==> 0x20 <= Escaped(s)[i] as nat && Harmless(Escaped(s)[i] as nat)
  {
    hide Hex4;
    if s != [] {
      EscapedIsOneLine(s[1..]);
      var head := EscapedChar(s[0]);
      assert forall i :: 0 <= i < |head| ==> 0x20 <= head[i] as nat && Harmless(head[i] as nat);
    }
  }

  /** No DEL, no C1 control, no line or paragraph separator. */
  predicate Harmless(code: nat) { (code < 0x7f || code > 0x9f) && code != 0x2028 && code != 0x2029 }

  /** A text made line-safe has none of them left raw. */
  lemma {:induction false} LineSafeIsHarmless(s: string)
    ensures forall i :: 0 <= i < |LineSafe(s)| ==> Harmless(LineSafe(s)[i] as nat)
  {
    hide Hex4;
    if s != [] {
      LineSafeIsHarmless(s[1..]);
      var head := SafeChar(s[0]);
      assert forall i :: 0 <= i < |head| ==> Harmless(head[i] as nat);
    }
  }

  /** What is escaped and what is left as it is, by code point. */
  lemma EscapedExactly(c: char)
    ensures SafeChar(c) == [c] <==> Harmless(c as nat)
    ensures EscapedChar(c) == [c] <==> c as nat >= 0x20 && c != '"' && c != '\\' && Harmless(c as nat)
  {
    hide Hex4;
  }
}
