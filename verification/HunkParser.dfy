/** How the patch parser fills a hunk: it numbers each body line as it comes and holds the hunk to
    the counts its header declared. */
module HunkParser {
  import opened Prelude
  import opened Machine
  import opened PatchHunk

  /** What a line is to an open hunk. */
  datatype Consumed = NotBody | Mismatch | Taken

  datatype Fault = Truncated | WithoutChange

  /** The kind of a body line by its marker; an empty line is a blank context line. */
  function KindOf(line: string): Option<Kind> {
    if line == [] || line[0] == ' ' then Some(Context)
    else if line[0] == '+' then Some(Added)
    else if line[0] == '-' then Some(Removed)
    else None
  }

  /** The line is read back from its prefix and text; an empty one is a context line without prefix. */
  predicate Spells(l: Line, line: string) {
    [Prefix(l.kind)] + l.text == line || (line == [] && l.kind == Context && l.text == [])
  }

  function TextOf(line: string): string { if line == [] then [] else line[1..] }

  lemma CountAppend(lines: seq<Line>, l: Line, other: Kind)
    ensures Count(lines + [l], other) == Count(lines, other) + if l.kind == other then 0 else 1
  {
    assert (lines + [l])[..|lines|] == lines;
  }

  lemma NumbersAppend(oldStart: u32, newStart: u32, lines: seq<Line>, l: Line)
    requires NumbersFrom(oldStart, newStart, lines)
    requires l.oldLine == if l.kind == Added then None else Some(NumberAfter(oldStart, Count(lines, Added)))
    requires l.newLine == if l.kind == Removed then None else Some(NumberAfter(newStart, Count(lines, Removed)))
    ensures NumbersFrom(oldStart, newStart, lines + [l])
  {
    var all := lines + [l];
    forall i | 0 <= i < |all|
      ensures all[i].oldLine == NumberOf(oldStart, all, i, Added)
      ensures all[i].newLine == NumberOf(newStart, all, i, Removed)
    {
      assert all[..i] == lines[..i];
      assert i == |lines| ==> lines[..i] == lines;
    }
  }

  function Unended(lines: seq<Line>): seq<Line>
    requires lines != []
  {
    lines[|lines| - 1 := lines[|lines| - 1].(noNewline := true)]
  }

  function Lossy(lines: seq<Line>): seq<Line>
    requires lines != []
  {
    lines[|lines| - 1 := lines[|lines| - 1].(lossy := true)]
  }

  /** A mark on the last line changes no number and no count. */
  lemma LastMarked(oldStart: u32, newStart: u32, a: seq<Line>, b: seq<Line>)
    requires a != [] && (b == Unended(a) || b == Lossy(a))
    ensures Count(a, Added) == Count(b, Added) && Count(a, Removed) == Count(b, Removed)
    ensures NumbersFrom(oldStart, newStart, a) ==> NumbersFrom(oldStart, newStart, b)
    ensures LfFree(a) ==> LfFree(b)
  {
    var n := |a| - 1;
    assert a[..n] == b[..n];
    forall i | 0 <= i < |a| ensures a[..i] == b[..i] {}
  }

  /** The marker may come after the hunk was closed; the hunk stays as the parser closes them. */
  lemma MarkedStaysClosed(h: Hunk)
    requires h.lines != [] && Closed(h)
    ensures Closed(h.(lines := Unended(h.lines))) && Closed(h.(lines := Lossy(h.lines)))
  {
    hide NumbersFrom, Count;
    LastMarked(h.oldStart.value, h.newStart.value, h.lines, Unended(h.lines));
    LastMarked(h.oldStart.value, h.newStart.value, h.lines, Lossy(h.lines));
    var i :| 0 <= i < |h.lines| && h.lines[i].kind != Context;
    assert Unended(h.lines)[i].kind != Context && Lossy(h.lines)[i].kind != Context;
  }

  class HunkBuf {
    const id: u64
    const oldStart: u32
    const newStart: u32
    const section: Option<string>
    ghost const oldCount: u32
    ghost const newCount: u32
    var oldLine: u32
    var newLine: u32
    var remOld: u32
    var remNew: u32
    var lines: seq<Line>

    ghost predicate Valid()
      reads this
    {
      && oldLine == NumberAfter(oldStart, Count(lines, Added))
      && newLine == NumberAfter(newStart, Count(lines, Removed))
      && remOld + Count(lines, Added) == oldCount
      && remNew + Count(lines, Removed) == newCount
      && NumbersFrom(oldStart, newStart, lines)
      && LfFree(lines)
    }

    constructor (id: u64, oldStart: u32, oldCount: u32, newStart: u32, newCount: u32, section: Option<string>)
      ensures Valid() && lines == []
      ensures this.id == id && this.oldStart == oldStart && this.newStart == newStart && this.section == section
      ensures this.oldCount == oldCount && this.newCount == newCount
    {
      this.id, this.oldStart, this.newStart, this.section := id, oldStart, newStart, section;
      this.oldCount, this.newCount := oldCount, newCount;
      oldLine, newLine, remOld, remNew, lines := oldStart, newStart, oldCount, newCount, [];
    }

    /** Take a body line, numbered, unless the header's counts have no room for it. */
    method ConsumeBody(line: string) returns (r: Consumed)
      requires Valid() && LF !in line
      modifies this
      ensures Valid()
      ensures r == NotBody <==> KindOf(line).None?
      ensures r == Mismatch <==>
                && KindOf(line).Some?
                && (|| (KindOf(line) != Some(Added) && Count(old(lines), Added) == oldCount)
                    || (KindOf(line) != Some(Removed) && Count(old(lines), Removed) == newCount))
      ensures if r == Taken
              then |lines| == |old(lines)| + 1 && lines[..|old(lines)|] == old(lines) &&
                   Some(lines[|old(lines)|].kind) == KindOf(line) && lines[|old(lines)|].text == TextOf(line)
              else lines == old(lines)
      ensures r == Taken ==> Spells(lines[|old(lines)|], line)
    {
      hide Count, NumbersFrom;
      var text := if line == [] then [] else line[1..];
      if line == [] || line[0] == ' ' {
        if remOld == 0 || remNew == 0 { return Mismatch; }
        Push(Line(Context, text, false, false, Some(oldLine), Some(newLine)));
      } else if line[0] == '+' {
        if remNew == 0 { return Mismatch; }
        Push(Line(Added, text, false, false, None, Some(newLine)));
      } else if line[0] == '-' {
        if remOld == 0 { return Mismatch; }
        Push(Line(Removed, text, false, false, Some(oldLine), None));
      } else {
        return NotBody;
      }
      r := Taken;
    }

    method Push(l: Line)
      requires Valid() && LF !in l.text
      requires l.oldLine == if l.kind == Added then None else Some(oldLine)
      requires l.newLine == if l.kind == Removed then None else Some(newLine)
      requires (l.kind != Added ==> remOld > 0) && (l.kind != Removed ==> remNew > 0)
      modifies this
      ensures Valid() && lines == old(lines) + [l]
    {
      hide Count, NumbersFrom;
      CountAppend(lines, l, Added);
      CountAppend(lines, l, Removed);
      NumbersAppend(oldStart, newStart, lines, l);
      lines := lines + [l];
      if l.kind != Added {
        oldLine := Min(oldLine + 1, U32_MAX);
        remOld := remOld - 1;
      }
      if l.kind != Removed {
        newLine := Min(newLine + 1, U32_MAX);
        remNew := remNew - 1;
      }
    }

    /** The `\ No newline at end of file` marker, read after a line of the open hunk. */
    method MarkUnended()
      requires Valid() && lines != []
      modifies this`lines
      ensures Valid() && lines == Unended(old(lines))
    {
      hide Count, NumbersFrom;
      LastMarked(oldStart, newStart, lines, Unended(lines));
      lines := Unended(lines);
    }

    /** The line just taken was not UTF-8. */
    method MarkLossy()
      requires Valid() && lines != []
      modifies this`lines
      ensures Valid() && lines == Lossy(old(lines))
    {
      hide Count, NumbersFrom;
      LastMarked(oldStart, newStart, lines, Lossy(lines));
      lines := Lossy(lines);
    }

    /** Close the hunk: a full one with a change in it has its lines numbered from its starts and
        the counts its header declared. */
    method Close() returns (r: Result<Hunk, Fault>)
      requires Valid()
      ensures r == Err(Truncated) <==> Count(lines, Added) < oldCount || Count(lines, Removed) < newCount
      ensures r == Err(WithoutChange) <==>
                && Count(lines, Added) == oldCount && Count(lines, Removed) == newCount
                && forall l :: l in lines ==> l.kind == Context
      ensures r.Ok? ==>
                && r.value == Hunk(id, Some(oldStart), Some(newStart), section, lines)
                && Closed(r.value)
                && Count(lines, Added) == oldCount && Count(lines, Removed) == newCount
    {
      if remOld != 0 || remNew != 0 { return Err(Truncated); }
      if forall l :: l in lines ==> l.kind == Context { return Err(WithoutChange); }
      r := Ok(Hunk(id, Some(oldStart), Some(newStart), section, lines));
    }
  }
}
