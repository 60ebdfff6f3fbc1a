/** Hunks of a patch and the bytes a hunk's address hashes. Text is its UTF-8 bytes, one char for
    each; the hash itself is not modelled here. */
module PatchHunk {
  import opened Prelude
  import opened Machine
  import Decimal

  datatype Kind = Context | Removed | Added
  datatype Line = Line(kind: Kind, text: string, noNewline: bool, lossy: bool,
                       oldLine: Option<u32>, newLine: Option<u32>)
  datatype Hunk = Hunk(id: u64, oldStart: Option<u32>, newStart: Option<u32>, section: Option<string>,
                       lines: seq<Line>)

  const NUL: char := '\0'
  const LF: char := '\n'
  const TAG: string := "ddf-hunk-v1"
  const NO_NEWLINE: string := "\\ No newline at end of file\n"

  function Prefix(k: Kind): char {
    match k
    case Context => ' '
    case Removed => '-'
    case Added => '+'
  }

  function Mark(noNewline: bool): string { if noNewline then NO_NEWLINE else [] }

  function Encoded(line: Line): string {
    [Prefix(line.kind)] + line.text + [LF] + Mark(line.noNewline)
  }

  function Body(lines: seq<Line>): string {
    if lines == [] then [] else Body(lines[..|lines| - 1]) + Encoded(lines[|lines| - 1])
  }

  /** Lines on the side that a line of kind `other` is not on. */
  function Count(lines: seq<Line>, other: Kind): nat {
    if lines == [] then 0
    else Count(lines[..|lines| - 1], other) + if lines[|lines| - 1].kind == other then 0 else 1
  }

  function OrZero(n: Option<u32>): u32 { if n.Some? then n.value else 0 }

  function Range(start: u32, count: nat): string {
    Decimal.Print(start) + [','] + Decimal.Print(count % U32_SIZE)
  }

  function OldRange(h: Hunk): string { Range(OrZero(h.oldStart), Count(h.lines, Added)) }

  function NewRange(h: Hunk): string { Range(OrZero(h.newStart), Count(h.lines, Removed)) }

  /** Four fields, the first three each ended by a NUL. */
  function Fields(a: string, b: string, c: string, rest: string): string {
    a + [NUL] + (b + [NUL] + (c + [NUL] + rest))
  }

  function Preimage(path: string, h: Hunk): string {
    TAG + [NUL] + Fields(path, OldRange(h), NewRange(h), Body(h.lines))
  }

  // ----- the program's loops -----

  method Counts(h: Hunk) returns (old_: u32, new_: u32)
    ensures old_ == Count(h.lines, Added) % U32_SIZE
    ensures new_ == Count(h.lines, Removed) % U32_SIZE
  {
    old_, new_ := 0, 0;
    for i := 0 to |h.lines|
      invariant old_ == Count(h.lines[..i], Added) % U32_SIZE
      invariant new_ == Count(h.lines[..i], Removed) % U32_SIZE
    {
      assert h.lines[..i + 1][..i] == h.lines[..i];
      WrapOne(Count(h.lines[..i], Added));
      WrapOne(Count(h.lines[..i], Removed));
      match h.lines[i].kind
      case Context =>
        old_, new_ := (old_ + 1) % U32_SIZE, (new_ + 1) % U32_SIZE;
      case Removed =>
        old_ := (old_ + 1) % U32_SIZE;
      case Added =>
        new_ := (new_ + 1) % U32_SIZE;
    }
    assert h.lines[..|h.lines|] == h.lines;
  }

  lemma WrapOne(n: nat)
    ensures (n % U32_SIZE + 1) % U32_SIZE == (n + 1) % U32_SIZE
  {}

  method BodyBytes(h: Hunk) returns (body: string)
    ensures body == Body(h.lines)
  {
    hide Encoded;
    body := [];
    for i := 0 to |h.lines|
      invariant body == Body(h.lines[..i])
    {
      body := AppendLine(body, h.lines[i]);
      assert h.lines[..i + 1][..i] == h.lines[..i];
    }
    assert h.lines[..|h.lines|] == h.lines;
  }

  method AppendLine(before: string, line: Line) returns (body: string)
    ensures body == before + Encoded(line)
  {
    var prefix := match line.kind
      case Context => ' '
      case Removed => '-'
      case Added => '+';
    body := before + [prefix];
    body := body + line.text;
    body := body + ['\n'];
    var mark := "\\ No newline at end of file\n";
    assert mark == NO_NEWLINE;
    if line.noNewline {
      body := body + mark;
    }
  }

  method AddressBytes(h: Hunk, path: string) returns (bytes: string)
    ensures bytes == Preimage(path, h)
  {
    hide Body, Count, Decimal.Print;
    var oldCount, newCount := Counts(h);
    var oldStart := if h.oldStart.Some? then h.oldStart.value else 0;
    var newStart := if h.newStart.Some? then h.newStart.value else 0;
    var oldRange := Decimal.Print(oldStart) + [','] + Decimal.Print(oldCount);
    var newRange := Decimal.Print(newStart) + [','] + Decimal.Print(newCount);
    var header := oldRange + ['\0'] + newRange;
    var body := BodyBytes(h);
    var tag := "ddf-hunk-v1\0";
    assert tag == TAG + [NUL];
    bytes := tag + path + ['\0'] + header + ['\0'] + body;
    assert oldRange == OldRange(h) && newRange == NewRange(h);
    FieldsFlat(tag, path, oldRange, newRange, body);
  }

  lemma FieldsFlat(tag: string, a: string, b: string, c: string, rest: string)
    ensures tag + a + [NUL] + (b + [NUL] + c) + [NUL] + rest == tag + Fields(a, b, c, rest)
  {}

  // ----- what the bytes determine -----

  /** A field that does not hold its separator ends at the first one; a known field ends anyway. */
  lemma FieldEnds(a: string, b: string, sep: char, restA: string, restB: string)
    requires a == b || (sep !in a && sep !in b)
    requires a + [sep] + restA == b + [sep] + restB
    ensures a == b && restA == restB
  {
    var whole := a + [sep] + restA;
    assert whole[|a|] == sep && whole[|b|] == sep;
    assert forall i :: 0 <= i < |a| ==> whole[i] == a[i];
    assert forall i :: 0 <= i < |b| ==> whole[i] == b[i];
    assert |a| == |b|;
    assert a == whole[..|a|] && b == whole[..|b|];
    assert restA == whole[|a| + 1..] && restB == whole[|b| + 1..];
  }

  lemma RangeDetermines(s1: u32, c1: nat, s2: u32, c2: nat)
    requires Range(s1, c1) == Range(s2, c2)
    ensures s1 == s2
  {
    FieldEnds(Decimal.Print(s1), Decimal.Print(s2), ',', Decimal.Print(c1 % U32_SIZE), Decimal.Print(c2 % U32_SIZE));
    Decimal.ReadsBack(s1);
    Decimal.ReadsBack(s2);
  }

  predicate LfFree(lines: seq<Line>) { forall i :: 0 <= i < |lines| ==> LF !in lines[i].text }

  lemma {:induction false} BodyFirst(lines: seq<Line>)
    requires lines != []
    ensures Body(lines) == Encoded(lines[0]) + Body(lines[1..])
  {
    var n := |lines| - 1;
    if n == 0 {
      assert Body(lines[..0]) == [] && lines[1..] == [];
    } else {
      var mid := lines[1..n];
      BodyFirst(lines[..n]);
      assert lines[..n][1..] == mid && lines[1..][..n - 1] == mid;
      Regroup(Encoded(lines[0]), Body(mid), Encoded(lines[n]));
    }
  }

  /** A body never starts as the no-newline mark does. */
  lemma MarkIsNoLine(lines: seq<Line>)
    ensures Body(lines) == [] || Body(lines)[0] != NO_NEWLINE[0]
  {
    if lines != [] {
      BodyFirst(lines);
      assert Body(lines)[0] == Prefix(lines[0].kind);
    }
  }

  lemma MarkEnds(markA: bool, markB: bool, bodyA: string, bodyB: string)
    requires bodyA == [] || bodyA[0] != NO_NEWLINE[0]
    requires bodyB == [] || bodyB[0] != NO_NEWLINE[0]
    requires Mark(markA) + bodyA == Mark(markB) + bodyB
    ensures markA == markB && bodyA == bodyB
  {
    assert markA ==> (Mark(markA) + bodyA)[0] == NO_NEWLINE[0];
    assert markB ==> (Mark(markB) + bodyB)[0] == NO_NEWLINE[0];
    assert bodyA == (Mark(markA) + bodyA)[|Mark(markA)|..];
    assert bodyB == (Mark(markB) + bodyB)[|Mark(markB)|..];
  }

  /** Lines that differ at most in their numbers and in whether they were decoded with loss. */
  predicate SameText(a: Line, b: Line) {
    a.kind == b.kind && a.text == b.text && a.noNewline == b.noNewline
  }

  predicate SameTexts(a: seq<Line>, b: seq<Line>) {
    |a| == |b| && forall i :: 0 <= i < |a| ==> SameText(a[i], b[i])
  }

  lemma LineEnds(a: Line, b: Line, bodyA: string, bodyB: string)
    requires LF !in a.text && LF !in b.text
    requires bodyA == [] || bodyA[0] != NO_NEWLINE[0]
    requires bodyB == [] || bodyB[0] != NO_NEWLINE[0]
    requires Encoded(a) + bodyA == Encoded(b) + bodyB
    ensures SameText(a, b) && bodyA == bodyB
  {
    hide Mark;
    var pa, pb := [Prefix(a.kind)] + a.text, [Prefix(b.kind)] + b.text;
    assert Encoded(a) + bodyA == pa + [LF] + (Mark(a.noNewline) + bodyA);
    assert Encoded(b) + bodyB == pb + [LF] + (Mark(b.noNewline) + bodyB);
    FieldEnds(pa, pb, LF, Mark(a.noNewline) + bodyA, Mark(b.noNewline) + bodyB);
    assert pa[0] == pb[0] && pa[1..] == a.text && pb[1..] == b.text;
    MarkEnds(a.noNewline, b.noNewline, bodyA, bodyB);
  }

  /** The body determines every line: its kind, its text and whether a newline ends it. */
  lemma {:induction false} BodyDetermines(a: seq<Line>, b: seq<Line>)
    requires LfFree(a) && LfFree(b) && Body(a) == Body(b)
    ensures SameTexts(a, b)
    decreases |a|
  {
    if a == [] || b == [] {
      if a != [] { BodyFirst(a); }
      if b != [] { BodyFirst(b); }
    } else {
      BodyFirst(a);
      BodyFirst(b);
      MarkIsNoLine(a[1..]);
      MarkIsNoLine(b[1..]);
      LineEnds(a[0], b[0], Body(a[1..]), Body(b[1..]));
      BodyDetermines(a[1..], b[1..]);
      assert forall i :: 0 < i < |a| ==> a[i] == a[1..][i - 1] && b[i] == b[1..][i - 1];
    }
  }

  lemma {:induction false} SameBody(a: seq<Line>, b: seq<Line>)
    requires SameTexts(a, b)
    ensures Body(a) == Body(b) && Count(a, Added) == Count(b, Added) && Count(a, Removed) == Count(b, Removed)
    decreases |a|
  {
    if a != [] {
      var n := |a| - 1;
      SameBody(a[..n], b[..n]);
      assert SameText(a[n], b[n]);
    }
  }

  /** Two hunks hash the same bytes exactly when they have the same path, start at the same lines
      (a missing start counts as 0) and have the same lines. */
  lemma AddressDetermines(path1: string, h1: Hunk, path2: string, h2: Hunk)
    requires path1 == path2 || (NUL !in path1 && NUL !in path2)
    requires LfFree(h1.lines) && LfFree(h2.lines)
    ensures Preimage(path1, h1) == Preimage(path2, h2) <==>
              && path1 == path2
              && OrZero(h1.oldStart) == OrZero(h2.oldStart)
              && OrZero(h1.newStart) == OrZero(h2.newStart)
              && SameTexts(h1.lines, h2.lines)
  {
    if Preimage(path1, h1) == Preimage(path2, h2) {
      var f1 := Fields(path1, OldRange(h1), NewRange(h1), Body(h1.lines));
      var f2 := Fields(path2, OldRange(h2), NewRange(h2), Body(h2.lines));
      assert f1 == Preimage(path1, h1)[|TAG| + 1..] && f2 == Preimage(path2, h2)[|TAG| + 1..];
      FieldsDetermine(path1, OldRange(h1), NewRange(h1), Body(h1.lines),
                      path2, OldRange(h2), NewRange(h2), Body(h2.lines));
      RangeDetermines(OrZero(h1.oldStart), Count(h1.lines, Added), OrZero(h2.oldStart), Count(h2.lines, Added));
      RangeDetermines(OrZero(h1.newStart), Count(h1.lines, Removed), OrZero(h2.newStart), Count(h2.lines, Removed));
      BodyDetermines(h1.lines, h2.lines);
    } else if SameTexts(h1.lines, h2.lines) {
      SameBody(h1.lines, h2.lines);
    }
  }

  lemma FieldsDetermine(a1: string, b1: string, c1: string, r1: string, a2: string, b2: string, c2: string, r2: string)
    requires a1 == a2 || (NUL !in a1 && NUL !in a2)
    requires NUL !in b1 && NUL !in c1 && NUL !in b2 && NUL !in c2
    requires Fields(a1, b1, c1, r1) == Fields(a2, b2, c2, r2)
    ensures a1 == a2 && b1 == b2 && c1 == c2 && r1 == r2
  {
    FieldEnds(a1, a2, NUL, b1 + [NUL] + (c1 + [NUL] + r1), b2 + [NUL] + (c2 + [NUL] + r2));
    FieldEnds(b1, b2, NUL, c1 + [NUL] + r1, c2 + [NUL] + r2);
    FieldEnds(c1, c2, NUL, r1, r2);
  }

  /** Line feeds inside a line's text would let different hunks hash the same bytes. */
  lemma LineFeedsCollide()
    ensures var h1 := Hunk(0, None, None, None, [Plus("a\n+b"), Plus("c")]);
            var h2 := Hunk(0, None, None, None, [Plus("a"), Plus("b\n+c")]);
            !SameTexts(h1.lines, h2.lines) && Preimage("p", h1) == Preimage("p", h2)
  {
    var x, y, u, v := Plus("a\n+b"), Plus("c"), Plus("a"), Plus("b\n+c");
    SplitEitherWay();
    hide Encoded, Body, Count;
    TwoLines(x, y);
    TwoLines(u, v);
    assert !SameText([x, y][0], [u, v][0]);
  }

  lemma SplitEitherWay()
    ensures Encoded(Plus("a\n+b")) + Encoded(Plus("c")) == Encoded(Plus("a")) + Encoded(Plus("b\n+c"))
  {}

  function Plus(text: string): Line { Line(Added, text, false, false, None, None) }

  lemma TwoLines(x: Line, y: Line)
    ensures Body([x, y]) == Encoded(x) + Encoded(y)
    ensures Count([x, y], Added) == (if x.kind == Added then 0 else 1) + (if y.kind == Added then 0 else 1)
    ensures Count([x, y], Removed) == (if x.kind == Removed then 0 else 1) + (if y.kind == Removed then 0 else 1)
  {
    assert [x, y][..1] == [x] && [x][..0] == [];
    assert Body([x]) == Body([]) + Encoded(x);
    assert Count([x], Added) == if x.kind == Added then 0 else 1;
    assert Count([x], Removed) == if x.kind == Removed then 0 else 1;
  }

  // ----- line numbers -----

  /** The number of line `i` on the side that lines of kind `other` are not on: it counts up from
      the hunk's start and stays at the largest number. */
  function NumberOf(start: u32, lines: seq<Line>, i: nat, other: Kind): Option<u32>
    requires i < |lines|
  {
    if lines[i].kind == other then None else Some(NumberAfter(start, Count(lines[..i], other)))
  }

  function NumberAfter(start: u32, count: nat): u32 { Min(start + count, U32_MAX) }

  /** Every line has the numbers its place in the hunk gives it. */
  predicate Numbered(h: Hunk) {
    && h.oldStart.Some? && h.newStart.Some?
    && NumbersFrom(h.oldStart.value, h.newStart.value, h.lines)
  }

  predicate NumbersFrom(oldStart: u32, newStart: u32, lines: seq<Line>) {
    forall i :: 0 <= i < |lines| ==>
      && lines[i].oldLine == NumberOf(oldStart, lines, i, Added)
      && lines[i].newLine == NumberOf(newStart, lines, i, Removed)
  }

  /** What the parser makes sure of in a hunk it closes: no line feed in a line, lines numbered from
      the starts, counts that fit the header's numbers, and a change. */
  predicate Closed(h: Hunk) {
    && LfFree(h.lines) && Numbered(h)
    && Count(h.lines, Added) < U32_SIZE && Count(h.lines, Removed) < U32_SIZE
    && exists i :: 0 <= i < |h.lines| && h.lines[i].kind != Context
  }

  /** Lines that differ at most in whether they were decoded with loss. */
  predicate SameLines(a: seq<Line>, b: seq<Line>) {
    |a| == |b| && forall i :: 0 <= i < |a| ==> a[i].(lossy := b[i].lossy) == b[i]
  }

  /** Hunks that differ at most in their ids, their section headings and their lossy marks. */
  predicate SameHunk(h1: Hunk, h2: Hunk) {
    h1.oldStart == h2.oldStart && h1.newStart == h2.newStart && SameLines(h1.lines, h2.lines)
  }

  /** Starts and texts determine the numbers. */
  lemma NumbersFollow(oldStart: u32, newStart: u32, a: seq<Line>, b: seq<Line>)
    requires NumbersFrom(oldStart, newStart, a) && NumbersFrom(oldStart, newStart, b) && SameTexts(a, b)
    ensures SameLines(a, b)
  {
    forall i | 0 <= i < |a| ensures a[i].(lossy := b[i].lossy) == b[i] {
      SameBody(a[..i], b[..i]);
      assert SameText(a[i], b[i]);
    }
  }

  /** What the bytes determine of a hunk the parser closed: everything but its id, its section
      heading and its lossy marks. */
  lemma AddressDeterminesClosed(path1: string, h1: Hunk, path2: string, h2: Hunk)
    requires path1 == path2 || (NUL !in path1 && NUL !in path2)
    requires Closed(h1) && Closed(h2)
    ensures Preimage(path1, h1) == Preimage(path2, h2) <==> path1 == path2 && SameHunk(h1, h2)
  {
    hide Preimage, NumbersFrom;
    AddressDetermines(path1, h1, path2, h2);
    if Preimage(path1, h1) == Preimage(path2, h2) {
      NumbersFollow(h1.oldStart.value, h1.newStart.value, h1.lines, h2.lines);
    }
  }

  /** `lines` with other lossy marks. */
  function Remarked(lines: seq<Line>, marks: seq<bool>): seq<Line>
    requires |lines| == |marks|
  {
    seq(|lines|, i requires 0 <= i < |lines| => lines[i].(lossy := marks[i]))
  }

  /** Those three are free: whatever they are, the hunk is as closed as before and hashes the same
      bytes. */
  lemma UnhashedAreFree(path: string, h: Hunk, id: u64, section: Option<string>, marks: seq<bool>)
    requires |marks| == |h.lines|
    ensures var other := Hunk(id, h.oldStart, h.newStart, section, Remarked(h.lines, marks));
            Preimage(path, other) == Preimage(path, h) && (Closed(h) ==> Closed(other))
  {
    hide Body, Count, NumbersFrom;
    var a, b := h.lines, Remarked(h.lines, marks);
    SameBody(a, b);
    if Closed(h) {
      NumbersStay(h.oldStart.value, h.newStart.value, a, b);
      var i :| 0 <= i < |a| && a[i].kind != Context;
      assert b[i].kind != Context;
    }
  }

  lemma NumbersStay(oldStart: u32, newStart: u32, a: seq<Line>, b: seq<Line>)
    requires NumbersFrom(oldStart, newStart, a) && SameLines(a, b)
    ensures NumbersFrom(oldStart, newStart, b)
  {
    forall i | 0 <= i < |b|
      ensures b[i].oldLine == NumberOf(oldStart, b, i, Added)
      ensures b[i].newLine == NumberOf(newStart, b, i, Removed)
    {
      SameBody(a[..i], b[..i]);
      assert a[i].(lossy := b[i].lossy) == b[i];
    }
  }
}
