/** The capped line framer of the stdio server: lines are cut out of a byte stream that arrives in
    buffer fills of any size; a line over the cap is drained to its end and refused. */
module LineFramer {
  import opened Prelude
  import opened Machine

  type Bytes = seq<byte>

  const LF: byte := 10

  /** What one call returns: the end of input, a line, or a line over the cap. */
  datatype Outcome = End | Line(line: Bytes) | TooLong

  ghost function Flat(fills: seq<Bytes>): Bytes {
    if fills == [] then [] else fills[0] + Flat(fills[1..])
  }

  /** Buffered input: the fills still to come, the first partly consumed. */
  class Input {
    var fills: seq<Bytes>

    ghost predicate Valid()
      reads this
    {
      forall i :: 0 <= i < |fills| ==> fills[i] != []
    }

    /** Every byte not consumed yet. */
    ghost function Rest(): Bytes
      reads this
    {
      Flat(fills)
    }

    constructor (fills: seq<Bytes>)
      requires forall i :: 0 <= i < |fills| ==> fills[i] != []
      ensures Valid() && Rest() == Flat(fills)
    {
      this.fills := fills;
    }

    method FillBuf() returns (available: Bytes)
      requires Valid()
      ensures available <= Rest()
      ensures available == [] <==> Rest() == []
      ensures available == if fills == [] then [] else fills[0]
    {
      available := if fills == [] then [] else fills[0];
    }

    method Consume(n: nat)
      requires Valid() && fills != [] && n <= |fills[0]|
      modifies this
      ensures Valid() && Rest() == old(Rest())[n..]
    {
      ghost var later := Flat(fills[1..]);
      if n == |fills[0]| {
        fills := fills[1..];
      } else {
        ghost var before := fills;
        fills := [fills[0][n..]] + fills[1..];
        assert fills[1..] == before[1..];
        assert before[0][n..] + later == (before[0] + later)[n..];
      }
    }
  }

  /** The index of the first line feed, or the length when there is none. */
  method Position(b: Bytes) returns (at: nat)
    ensures at <= |b| && LF !in b[..at]
    ensures at < |b| ==> b[at] == LF
  {
    at := 0;
    while at < |b| && b[at] != LF
      invariant at <= |b| && LF !in b[..at]
    {
      at := at + 1;
    }
  }

  // ----- what the stream says, whatever its fills -----

  /** The lines of a stream; a last line needs no line feed. */
  ghost function Lines(s: Bytes): seq<Bytes> {
    if s == [] then []
    else if s[0] == LF then [[]] + Lines(s[1..])
    else
      var rest := Lines(s[1..]);
      if rest == [] then [[s[0]]] else [[s[0]] + rest[0]] + rest[1..]
  }

  ghost function Judged(line: Bytes, cap: nat): Outcome {
    if |line| <= cap then Line(line) else TooLong
  }

  lemma {:induction false} LastLine(s: Bytes)
    requires s != [] && LF !in s
    ensures Lines(s) == [s]
  {
    if |s| > 1 {
      LastLine(s[1..]);
      assert s == [s[0]] + s[1..];
      assert [s[1..]][1..] == [];
    } else {
      assert s == [s[0]];
    }
  }

  lemma {:induction false} FirstLine(line: Bytes, rest: Bytes)
    requires LF !in line
    ensures Lines(line + [LF] + rest) == [line] + Lines(rest)
  {
    var s := line + [LF] + rest;
    if line == [] {
      assert s[1..] == rest;
    } else {
      FirstLine(line[1..], rest);
      assert s[1..] == line[1..] + [LF] + rest;
      assert [line[0]] + line[1..] == line;
      assert ([line[1..]] + Lines(rest))[1..] == Lines(rest);
    }
  }

  /** What one call does to the stream `before` it: nothing is left, or one line is taken off. */
  ghost predicate Takes(before: Bytes, outcome: Outcome, after: Bytes, cap: nat) {
    if before == [] then outcome == End && after == []
    else
      && |after| < |before|
      && exists line: Bytes :: outcome == Judged(line, cap) && Lines(before) == [line] + Lines(after)
  }

  // ----- the loop -----

  /** What is kept of a line so far: all of it, or nothing once it is over the cap. */
  ghost predicate Keeps(line: Bytes, over: bool, seen: Bytes, cap: nat) {
    if over then |seen| > cap && line == [] else line == seen && |line| <= cap
  }

  method Extend(line: Bytes, over: bool, chunk: Bytes, cap: nat, ghost seen: Bytes) returns (line': Bytes, over': bool)
    requires Keeps(line, over, seen, cap)
    ensures Keeps(line', over', seen + chunk, cap)
  {
    line', over' := line, over;
    if !over {
      if |line| + |chunk| > cap {
        line', over' := [], true;
      } else {
        line' := line + chunk;
      }
    }
  }

  lemma TakesLast(whole: Bytes, line: Bytes, over: bool, cap: nat)
    requires LF !in whole && Keeps(line, over, whole, cap)
    ensures Takes(whole, if line == [] && !over then End else if over then TooLong else Line(line), [], cap)
  {
    if whole != [] {
      LastLine(whole);
      assert Judged(whole, cap) == if over then TooLong else Line(line);
      assert Lines(whole) == [whole] + Lines([]);
    }
  }

  lemma TakesFirst(seen: Bytes, rest: Bytes, line: Bytes, over: bool, cap: nat)
    requires LF !in seen && Keeps(line, over, seen, cap)
    ensures Takes(seen + [LF] + rest, if over then TooLong else Line(line), rest, cap)
  {
    FirstLine(seen, rest);
    assert Judged(seen, cap) == if over then TooLong else Line(line);
  }

  method ReadLine(input: Input, cap: nat) returns (outcome: Outcome)
    requires input.Valid()
    modifies input
    ensures input.Valid() && Takes(old(input.Rest()), outcome, input.Rest(), cap)
  {
    hide Takes, Keeps, Flat;
    var line: Bytes, over := [], false;
    ghost var seen: Bytes := [];
    ghost var whole := input.Rest();
    KeepsNothing(cap);
    while true
      invariant input.Valid()
      invariant seen + input.Rest() == whole && LF !in seen
      invariant Keeps(line, over, seen, cap)
      decreases |input.Rest()|
    {
      var available := input.FillBuf();
      if available == [] {
        assert seen == whole;
        TakesLast(whole, line, over, cap);
        return if line == [] && !over then End else if over then TooLong else Line(line);
      }
      var at := Position(available);
      var chunk, done := available[..at], if at < |available| then at + 1 else at;
      var found := done > |chunk|;
      line, over := Extend(line, over, chunk, cap, seen);
      ghost var before := input.Rest();
      input.Consume(done);
      assert before == available[..done] + input.Rest();
      Advances(seen, available, at, input.Rest());
      seen := seen + chunk;
      if found {
        TakesFirst(seen, input.Rest(), line, over, cap);
        return if over then TooLong else Line(line);
      }
    }
  }

  /** The bytes consumed are the part of the line, and its line feed when there is one. */
  lemma Advances(seen: Bytes, available: Bytes, at: nat, after: Bytes)
    requires at <= |available| && (at < |available| ==> available[at] == LF)
    ensures at < |available| ==>
              seen + (available[..at + 1] + after) == seen + available[..at] + [LF] + after
    ensures at == |available| ==> seen + (available[..at] + after) == seen + available[..at] + after
  {
    Regroup(seen, available[..at], after);
    if at < |available| {
      assert available[..at + 1] == available[..at] + [LF];
      Regroup(available[..at], [LF], after);
      Regroup(seen, available[..at], [LF] + after);
      Regroup(seen + available[..at], [LF], after);
    }
  }

  lemma KeepsNothing(cap: nat)
    ensures Keeps([], false, [], cap)
  {}

  ghost function AllJudged(lines: seq<Bytes>, cap: nat): seq<Outcome> {
    if lines == [] then [] else [Judged(lines[0], cap)] + AllJudged(lines[1..], cap)
  }

  lemma TakenIsNext(before: Bytes, outcome: Outcome, after: Bytes, cap: nat)
    requires Takes(before, outcome, after, cap) && outcome != End
    ensures AllJudged(Lines(before), cap) == [outcome] + AllJudged(Lines(after), cap)
  {
    var line: Bytes :| outcome == Judged(line, cap) && Lines(before) == [line] + Lines(after);
    assert ([line] + Lines(after))[1..] == Lines(after);
  }

  /** Reading until the end gives every line of the stream once, in order, each within the cap
      returned whole and each over it refused, however the stream was cut into fills. */
  method ReadAll(fills: seq<Bytes>, cap: nat) returns (outcomes: seq<Outcome>)
    requires forall i :: 0 <= i < |fills| ==> fills[i] != []
    ensures outcomes == AllJudged(Lines(Flat(fills)), cap)
  {
    hide Flat;
    var input := new Input(fills);
    outcomes := [];
    ghost var whole := AllJudged(Lines(Flat(fills)), cap);
    while true
      invariant input.Valid()
      invariant outcomes + AllJudged(Lines(input.Rest()), cap) == whole
      decreases |input.Rest()|
    {
      ghost var before := input.Rest();
      var outcome := ReadLine(input, cap);
      if outcome == End {
        assert outcomes + [] == outcomes;
        return;
      }
      TakenIsNext(before, outcome, input.Rest(), cap);
      Regroup(outcomes, [outcome], AllJudged(Lines(input.Rest()), cap));
      outcomes := outcomes + [outcome];
    }
  }

  /** Nothing is lost or moved: the lines, with a line feed after each, are the stream, but for
      the line feed that a last line may lack. */
  ghost function Joined(lines: seq<Bytes>): Bytes {
    if lines == [] then [] else lines[0] + [LF] + Joined(lines[1..])
  }

  lemma {:induction false} LinesJoin(s: Bytes)
    ensures Joined(Lines(s)) == s || Joined(Lines(s)) == s + [LF]
  {
    if s == [] { return; }
    var rest := Lines(s[1..]);
    LinesJoin(s[1..]);
    assert s == [s[0]] + s[1..];
    if s[0] != LF && rest == [] {
      NoLines(s[1..]);
      assert Joined([s]) == s + [LF] + Joined([]);
    } else {
      if s[0] == LF { JoinEmpty(rest); } else { JoinLonger(s[0], rest); }
      Regroup([s[0]], s[1..], [LF]);
    }
  }

  /** No line holds a line feed, so the lines are the stream cut at every one. */
  lemma {:induction false} LinesAreCut(s: Bytes)
    ensures forall i :: 0 <= i < |Lines(s)| ==> LF !in Lines(s)[i]
  {
    if s != [] {
      LinesAreCut(s[1..]);
      var rest, lines := Lines(s[1..]), Lines(s);
      if s[0] != LF && rest != [] {
        assert LF !in rest[0];
        assert forall i :: 0 < i < |lines| ==> lines[i] == rest[i];
      }
    }
  }

  lemma JoinEmpty(rest: seq<Bytes>)
    ensures Joined([[]] + rest) == [LF] + Joined(rest)
  {
    assert ([[]] + rest)[1..] == rest;
  }

  lemma JoinLonger(b: byte, rest: seq<Bytes>)
    requires rest != []
    ensures Joined([[b] + rest[0]] + rest[1..]) == [b] + Joined(rest)
  {
    var lines := [[b] + rest[0]] + rest[1..];
    assert lines[1..] == rest[1..];
    Regroup([b], rest[0], [LF]);
    Regroup([b], rest[0] + [LF], Joined(rest[1..]));
  }

  lemma NoLines(s: Bytes)
    requires Lines(s) == []
    ensures s == []
  {}
}
