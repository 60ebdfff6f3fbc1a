/** The Prometheus text format (version 0.0.4) as the daemon's metrics are printed in it, and as a
    reader takes it apart again. */
module Exposition {
  import opened Prelude
  import opened Machine
  import Decimal

  datatype Label = Label(name: string, value: string)
  datatype Sample = Sample(name: string, labels: seq<Label>, value: string)

  // ----- writing -----

  function EscapedChar(c: char): string {
    if c == '\\' then "\\\\" else if c == '"' then "\\\"" else if c == '\n' then "\\n" else [c]
  }

  function EscapedLabel(s: string): string {
    if s == [] then [] else EscapedChar(s[0]) + EscapedLabel(s[1..])
  }

  function LabelText(l: Label): string { l.name + "=\"" + EscapedLabel(l.value) + "\"" }

  /** The labels from the second on, each after a comma, and the closing brace. */
  function MoreLabels(labels: seq<Label>): string {
    if labels == [] then "}" else "," + LabelText(labels[0]) + MoreLabels(labels[1..])
  }

  function LabelSet(labels: seq<Label>): string {
    if labels == [] then [] else "{" + LabelText(labels[0]) + MoreLabels(labels[1..])
  }

  function ValueText(value: string): string { " " + value + "\n" }

  function Line(s: Sample): string { s.name + LabelSet(s.labels) + ValueText(s.value) }

  method EscapeLabel(value: string) returns (escaped: string)
    ensures escaped == EscapedLabel(value)
  {
    escaped := [];
    assert value[0..] == value;
    for i := 0 to |value|
      invariant escaped + EscapedLabel(value[i..]) == EscapedLabel(value)
    {
      assert value[i..][1..] == value[i + 1..];
      Regroup(escaped, EscapedChar(value[i]), EscapedLabel(value[i + 1..]));
      var c := value[i];
      if c == '\\' { escaped := escaped + "\\\\"; }
      else if c == '"' { escaped := escaped + "\\\""; }
      else if c == '\n' { escaped := escaped + "\\n"; }
      else { escaped := escaped + [c]; }
    }
    assert escaped + [] == escaped;
  }

  class Family {
    var text: string
    var samples: nat

    constructor (header: string)
      ensures text == header && samples == 0
    {
      text, samples := header, 0;
    }

    method AddSample(s: Sample)
      modifies this
      ensures text == old(text) + Line(s) && samples == old(samples) + 1
    {
      hide LabelSet;
      var labels := Labels(s.labels);
      text := text + s.name;
      text := text + labels;
      text := text + (" " + s.value + "\n");
      samples := samples + 1;
    }
  }

  /** One name and its quoted value, after the brace or comma that leads it. */
  method AppendLabel(before: string, lead: char, l: Label) returns (out: string)
    ensures out == before + ([lead] + LabelText(l))
  {
    hide EscapedLabel;
    var escaped := EscapeLabel(l.value);
    out := before + [lead];
    out := out + (l.name + "=\"" + escaped + "\"");
    Regroup(before, [lead], LabelText(l));
  }

  method Labels(labels: seq<Label>) returns (out: string)
    ensures out == LabelSet(labels)
  {
    hide LabelText;
    out := [];
    if labels == [] { return; }
    for i := 0 to |labels|
      invariant i == 0 ==> out == []
      invariant i > 0 ==> out + MoreLabels(labels[i..]) == LabelSet(labels)
    {
      ghost var before, rest := out, MoreLabels(labels[i + 1..]);
      out := AppendLabel(out, if i == 0 then '{' else ',', labels[i]);
      assert labels[i..][1..] == labels[i + 1..];
      if i > 0 {
        Regroup(before, "," + LabelText(labels[i]), rest);
      }
    }
    out := out + "}";
  }

  // ----- reading -----

  predicate IsNameChar(c: char, colon: bool) {
    'a' <= c <= 'z' || 'A' <= c <= 'Z' || '0' <= c <= '9' || c == '_' || (colon && c == ':')
  }

  predicate IsName(s: string, colon: bool) {
    s != [] && !('0' <= s[0] <= '9') && forall i :: 0 <= i < |s| ==> IsNameChar(s[i], colon)
  }

  /** How many characters of a name `s` starts with. */
  function NameLength(s: string, colon: bool): (n: nat)
    ensures n <= |s| && forall i :: 0 <= i < n ==> IsNameChar(s[i], colon)
  {
    if s == [] || !IsNameChar(s[0], colon) then 0
    else
      var n := NameLength(s[1..], colon);
      assert forall i :: 0 < i < |s| ==> s[i] == s[1..][i - 1];
      n + 1
  }

  /** A quoted label value, its opening quote already read, and what follows its closing quote. */
  function ReadValue(s: string): (r: Option<(string, string)>)
    ensures r.Some? ==> |r.value.1| < |s|
    decreases |s|
  {
    if s == [] || s[0] == '\n' then None
    else if s[0] == '"' then Some(([], s[1..]))
    else if s[0] != '\\' then Prepend(s[0], ReadValue(s[1..]))
    else if |s| < 2 then None
    else if s[1] == '\\' || s[1] == '"' then Prepend(s[1], ReadValue(s[2..]))
    else if s[1] == 'n' then Prepend('\n', ReadValue(s[2..]))
    else None
  }

  function Prepend(c: char, r: Option<(string, string)>): Option<(string, string)> {
    if r.None? then None else Some(([c] + r.value.0, r.value.1))
  }

  function ReadLabel(s: string): (r: Option<(Label, string)>)
    ensures r.Some? ==> |r.value.1| < |s|
  {
    var n := NameLength(s, false);
    var rest := s[n..];
    if !IsName(s[..n], false) || |rest| < 2 || rest[0] != '=' || rest[1] != '"' then None
    else
      var v := ReadValue(rest[2..]);
      if v.None? then None else Some((Label(s[..n], v.value.0), v.value.1))
  }

  /** The labels after an opening brace or a comma, up to the closing brace. */
  function ReadLabels(s: string): Option<(seq<Label>, string)>
    decreases |s|
  {
    var l := ReadLabel(s);
    if l.None? || l.value.1 == [] then None
    else if l.value.1[0] == '}' then Some(([l.value.0], l.value.1[1..]))
    else if l.value.1[0] != ',' then None
    else
      var more := ReadLabels(l.value.1[1..]);
      if more.None? then None else Some(([l.value.0] + more.value.0, more.value.1))
  }

  /** One line as a sample: a name, a label set unless there is none, a space, the value and a
      line feed. */
  function ReadLine(s: string): Option<Sample> {
    var n := NameLength(s, true);
    var rest := s[n..];
    if !IsName(s[..n], true) || rest == [] then None
    else
      var set_ := if rest[0] == '{' then ReadLabels(rest[1..]) else Some(([], rest));
      if set_.None? then None else ReadTail(s[..n], set_.value.0, set_.value.1)
  }

  function ReadTail(name: string, labels: seq<Label>, tail: string): Option<Sample> {
    if |tail| < 2 || tail[0] != ' ' || tail[|tail| - 1] != '\n' || '\n' in tail[..|tail| - 1] then None
    else Some(Sample(name, labels, tail[1..|tail| - 1]))
  }

  // ----- round trip -----

  lemma {:induction false} NameEnds(a: string, rest: string, colon: bool)
    requires forall i :: 0 <= i < |a| ==> IsNameChar(a[i], colon)
    requires rest == [] || !IsNameChar(rest[0], colon)
    ensures NameLength(a + rest, colon) == |a|
  {
    if a == [] {
      assert a + rest == rest;
    } else {
      NameEnds(a[1..], rest, colon);
      assert (a + rest)[1..] == a[1..] + rest;
    }
  }

  lemma CharReadsBack(c: char, tail: string)
    ensures ReadValue(EscapedChar(c) + tail) == Prepend(c, ReadValue(tail))
  {
    var text := EscapedChar(c) + tail;
    assert text[|EscapedChar(c)|..] == tail;
  }

  lemma {:induction false} ValueReadsBack(v: string, rest: string)
    ensures ReadValue(EscapedLabel(v) + ("\"" + rest)) == Some((v, rest))
  {
    var text := EscapedLabel(v) + ("\"" + rest);
    if v == [] {
      assert text == "\"" + rest && text[1..] == rest;
    } else {
      hide EscapedChar, ReadValue;
      ValueReadsBack(v[1..], rest);
      Regroup(EscapedChar(v[0]), EscapedLabel(v[1..]), "\"" + rest);
      CharReadsBack(v[0], EscapedLabel(v[1..]) + ("\"" + rest));
      assert [v[0]] + v[1..] == v;
    }
  }

  lemma LabelReadsBack(l: Label, rest: string)
    requires IsName(l.name, false)
    ensures ReadLabel(LabelText(l) + rest) == Some((l, rest))
  {
    hide ReadValue, EscapedLabel;
    var quoted := EscapedLabel(l.value) + ("\"" + rest);
    var s := LabelText(l) + rest;
    assert s == l.name + ("=\"" + quoted);
    NameEnds(l.name, "=\"" + quoted, false);
    assert s[..|l.name|] == l.name;
    assert s[|l.name|..] == "=\"" + quoted;
    assert ("=\"" + quoted)[2..] == quoted;
    ValueReadsBack(l.value, rest);
  }

  lemma {:induction false} LabelsReadBack(first: Label, more: seq<Label>, rest: string)
    requires IsName(first.name, false) && forall i :: 0 <= i < |more| ==> IsName(more[i].name, false)
    ensures ReadLabels(LabelText(first) + MoreLabels(more) + rest) == Some(([first] + more, rest))
    decreases |more|
  {
    hide ReadLabel, LabelText, IsName;
    var s := LabelText(first) + MoreLabels(more) + rest;
    Regroup(LabelText(first), MoreLabels(more), rest);
    LabelReadsBack(first, MoreLabels(more) + rest);
    if more == [] {
      assert MoreLabels(more) + rest == "}" + rest;
      assert ("}" + rest)[1..] == rest;
      assert [first] + more == [first];
    } else {
      LabelsReadBack(more[0], more[1..], rest);
      var tail := LabelText(more[0]) + MoreLabels(more[1..]) + rest;
      assert MoreLabels(more) + rest == "," + tail;
      assert ("," + tail)[1..] == tail;
      assert [more[0]] + more[1..] == more;
    }
  }

  /** Every sample the daemon prints reads back as itself: for metric and label names that are
      identifiers, any label values at all, and a value on one line. */
  lemma SampleReadsBack(s: Sample)
    requires IsName(s.name, true) && '\n' !in s.value
    requires forall i :: 0 <= i < |s.labels| ==> IsName(s.labels[i].name, false)
    ensures ReadLine(Line(s)) == Some(s)
  {
    hide ReadLabels, LabelSet, ReadTail, ValueText, IsName;
    var value := ValueText(s.value);
    var line, rest := Line(s), LabelSet(s.labels) + value;
    SetStarts(s.labels, s.value);
    assert line == s.name + rest by { Regroup(s.name, LabelSet(s.labels), value); }
    assert NameLength(line, true) == |s.name| by {
      NameIsPlain(s.name, true);
      NameEnds(s.name, rest, true);
    }
    assert line[..|s.name|] == s.name && line[|s.name|..] == rest;
    TailReadsBack(s);
    SetReadsBack(s.labels, value);
  }

  lemma NameIsPlain(s: string, colon: bool)
    requires IsName(s, colon)
    ensures s != [] && forall i :: 0 <= i < |s| ==> IsNameChar(s[i], colon)
  {}

  lemma SetStarts(labels: seq<Label>, value: string)
    ensures var rest := LabelSet(labels) + ValueText(value);
            rest != [] && rest[0] == if labels == [] then ' ' else '{'
  {}

  lemma SetReadsBack(labels: seq<Label>, rest: string)
    requires forall i :: 0 <= i < |labels| ==> IsName(labels[i].name, false)
    ensures if labels == [] then LabelSet(labels) + rest == rest
            else ReadLabels((LabelSet(labels) + rest)[1..]) == Some((labels, rest))
  {
    hide ReadLabels, IsName, LabelText, MoreLabels;
    if labels != [] {
      LabelsReadBack(labels[0], labels[1..], rest);
      assert (LabelSet(labels) + rest)[1..] == LabelText(labels[0]) + MoreLabels(labels[1..]) + rest;
      assert [labels[0]] + labels[1..] == labels;
    }
  }

  lemma TailReadsBack(s: Sample)
    requires '\n' !in s.value
    ensures ReadTail(s.name, s.labels, ValueText(s.value)) == Some(s)
  {
    var value := ValueText(s.value);
    assert value[1..|value| - 1] == s.value && value[..|value| - 1] == " " + s.value;
  }

  // ----- seconds -----

  const MICROS: nat := 1_000_000

  /** The digits of `n` in `count` places. */
  function Padded(n: nat, count: nat): (s: string)
    ensures |s| == count && forall i :: 0 <= i < |s| ==> Decimal.IsDigit(s[i])
  {
    if count == 0 then [] else Padded(n / 10, count - 1) + [Decimal.Digit(n % 10)]
  }

  function TrimZeros(s: string): (t: string)
    ensures t <= s && (t != [] ==> t[|t| - 1] != '0')
  {
    if s != [] && s[|s| - 1] == '0' then TrimZeros(s[..|s| - 1]) else s
  }

  const PLACES: nat := 6

  function Seconds(micros: nat): string {
    var whole, fraction := micros / MICROS, micros % MICROS;
    if fraction == 0 then Decimal.Print(whole)
    else Decimal.Print(whole) + ['.'] + TrimZeros(Padded(fraction, PLACES))
  }

  function Zeros(n: nat): string { seq(n, i => '0') }

  /** A decimal number of seconds with at most six places, in microseconds. */
  ghost function ReadSeconds(whole: string, places: string): nat
    requires forall i :: 0 <= i < |whole| ==> Decimal.IsDigit(whole[i])
    requires |places| <= PLACES && forall i :: 0 <= i < |places| ==> Decimal.IsDigit(places[i])
  {
    Decimal.Value(whole) * MICROS + Decimal.Value(places + Zeros(PLACES - |places|))
  }

  ghost function Power10(n: nat): nat { if n == 0 then 1 else 10 * Power10(n - 1) }

  lemma {:induction false} PaddedValue(n: nat, count: nat)
    requires n < Power10(count)
    ensures Decimal.Value(Padded(n, count)) == n
  {
    if count > 0 {
      PaddedValue(n / 10, count - 1);
      assert Padded(n, count)[..count - 1] == Padded(n / 10, count - 1);
    }
  }

  lemma {:induction false} TrimRestores(s: string)
    ensures TrimZeros(s) + Zeros(|s| - |TrimZeros(s)|) == s
  {
    if s != [] && s[|s| - 1] == '0' {
      TrimRestores(s[..|s| - 1]);
      var t := TrimZeros(s);
      assert Zeros(|s| - |t|) == Zeros(|s| - 1 - |t|) + ['0'];
      assert s == s[..|s| - 1] + ['0'];
    }
  }

  lemma TrimmedIsZero(s: string)
    requires forall i :: 0 <= i < |s| ==> Decimal.IsDigit(s[i])
    ensures TrimZeros(s) == [] ==> Decimal.Value(s) == 0
  {
    TrimRestores(s);
    ZerosValue(|s|);
    assert [] + Zeros(|s|) == Zeros(|s|);
  }

  /** Printed seconds are exact: read as a decimal number they are the microseconds they came
      from, and they have no fraction that is zero and no trailing zero in one that is not. */
  lemma SecondsReadBack(micros: nat)
    ensures var whole, fraction := Decimal.Print(micros / MICROS), micros % MICROS;
            && (fraction == 0 ==> Seconds(micros) == whole && ReadSeconds(whole, []) == micros)
            && (fraction != 0 ==> exists places: string ::
                  && 0 < |places| <= PLACES && places[|places| - 1] != '0'
                  && (forall i :: 0 <= i < |places| ==> Decimal.IsDigit(places[i]))
                  && Seconds(micros) == whole + ['.'] + places
                  && ReadSeconds(whole, places) == micros)
  {
    hide Padded, TrimZeros, Decimal.Value, Decimal.Print;
    Decimal.ReadsBack(micros / MICROS);
    if micros % MICROS == 0 {
      ZerosValue(PLACES);
      assert [] + Zeros(PLACES) == Zeros(PLACES);
    } else {
      FractionReadsBack(micros % MICROS);
    }
  }

  lemma FractionReadsBack(fraction: nat)
    requires 0 < fraction < MICROS
    ensures var places := TrimZeros(Padded(fraction, PLACES));
            && 0 < |places| <= PLACES && (forall i :: 0 <= i < |places| ==> Decimal.IsDigit(places[i]))
            && places + Zeros(PLACES - |places|) == Padded(fraction, PLACES)
            && Decimal.Value(Padded(fraction, PLACES)) == fraction
  {
    var padded := Padded(fraction, PLACES);
    PowerOfPlaces();
    PaddedValue(fraction, PLACES);
    TrimRestores(padded);
    TrimmedIsZero(padded);
  }

  lemma PowerOfPlaces()
    ensures Power10(PLACES) == MICROS
  {
    assert Power10(6) == 1_000_000;
  }

  lemma {:induction false} ZerosValue(n: nat)
    ensures forall i :: 0 <= i < |Zeros(n)| ==> Decimal.IsDigit(Zeros(n)[i])
    ensures Decimal.Value(Zeros(n)) == 0
  {
    if n > 0 {
      ZerosValue(n - 1);
      assert Zeros(n)[..n - 1] == Zeros(n - 1);
    }
  }

  // ----- histogram buckets -----

  ghost function SumTo(buckets: seq<u64>, n: nat): nat
    requires n <= |buckets|
  {
    if n == 0 then 0 else SumTo(buckets, n - 1) + buckets[n - 1]
  }

  /** The cumulative counts of a histogram: each is the number of observations up to its bound,
      capped at the largest count there is, so they never fall and the last is the total. */
  method Cumulate(buckets: seq<u64>) returns (counts: seq<u64>, total: u64)
    ensures |counts| == |buckets|
    ensures forall i :: 0 <= i < |buckets| ==> counts[i] == Min(SumTo(buckets, i + 1), U64_MAX)
    ensures forall i, j :: 0 <= i <= j < |counts| ==> counts[i] <= counts[j]
    ensures total == if buckets == [] then 0 else counts[|counts| - 1]
  {
    counts := [];
    var cumulative: u64 := 0;
    for i := 0 to |buckets|
      invariant |counts| == i && cumulative == Min(SumTo(buckets, i), U64_MAX)
      invariant forall j :: 0 <= j < i ==> counts[j] == Min(SumTo(buckets, j + 1), U64_MAX)
      invariant forall j :: 0 <= j < i ==> counts[j] <= cumulative
      invariant forall j, k :: 0 <= j <= k < i ==> counts[j] <= counts[k]
      invariant i > 0 ==> counts[i - 1] == cumulative
    {
      ghost var before := counts;
      var next := SaturatingAdd(cumulative, buckets[i]);
      assert next == Min(SumTo(buckets, i + 1), U64_MAX) && cumulative <= next;
      cumulative := next;
      counts := counts + [cumulative];
      assert counts[i] == cumulative && forall j :: 0 <= j < i ==> counts[j] == before[j];
    }
    total := cumulative;
  }
}
