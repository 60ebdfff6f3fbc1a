/** The bytes of a changed-source snapshot: sorted by path, each path and content framed by its
    length, absence told apart from emptiness. */
module SourceSnapshot {
  import opened Prelude
  import opened Machine
  import opened Fips180

  type Bytes = seq<byte>

  datatype Source = Source(path: Bytes, content: Option<Bytes>)

  /** The text `ddf.changed-source-snapshot.v1` and a NUL. */
  const TAG: Bytes := [100, 100, 102, 46, 99, 104, 97, 110, 103, 101, 100, 45, 115, 111, 117, 114, 99, 101,
                       45, 115, 110, 97, 112, 115, 104, 111, 116, 46, 118, 49, 0]

  lemma TagSpells()
    ensures var text := "ddf.changed-source-snapshot.v1\0";
            |TAG| == |text| && forall i :: 0 <= i < |text| ==> TAG[i] == text[i] as nat
  {}

  // ----- the order of paths -----

  predicate Before(a: Bytes, b: Bytes) {
    if b == [] then false
    else if a == [] then true
    else a[0] < b[0] || (a[0] == b[0] && Before(a[1..], b[1..]))
  }

  lemma {:induction false} BeforeTotal(a: Bytes, b: Bytes)
    ensures Before(a, b) || a == b || Before(b, a)
  {
    if a != [] && b != [] && a[0] == b[0] {
      BeforeTotal(a[1..], b[1..]);
      assert a == [a[0]] + a[1..] && b == [b[0]] + b[1..];
    }
  }

  lemma {:induction false} BeforeStrict(a: Bytes, b: Bytes)
    ensures !(Before(a, b) && Before(b, a)) && !Before(a, a)
  {
    if a != [] { BeforeStrict(a[1..], a[1..]); }
    if a != [] && b != [] { BeforeStrict(a[1..], b[1..]); }
  }

  lemma {:induction false} BeforeTransitive(a: Bytes, b: Bytes, c: Bytes)
    requires Before(a, b) && Before(b, c)
    ensures Before(a, c)
  {
    if a != [] && a[0] == b[0] == c[0] { BeforeTransitive(a[1..], b[1..], c[1..]); }
  }

  /** The order of bytes: a proper prefix comes first, and otherwise the first byte that differs
      decides. */
  lemma {:induction false} BeforeIsByteOrder(a: Bytes, b: Bytes)
    ensures Before(a, b) <==> a != b && (a <= b || exists i :: FirstDifference(a, b, i) && a[i] < b[i])
  {
    if a != [] && b != [] {
      var x, y := a[1..], b[1..];
      BeforeIsByteOrder(x, y);
      assert a == [a[0]] + x && b == [b[0]] + y;
      if a[0] != b[0] {
        assert FirstDifference(a, b, 0);
      } else {
        assert forall i :: i >= 0 ==> (FirstDifference(x, y, i) <==> FirstDifference(a, b, i + 1)) by {
          forall i | i >= 0 ensures FirstDifference(x, y, i) <==> FirstDifference(a, b, i + 1) {
            DifferenceShifts(a, b, i);
          }
        }
        if i :| FirstDifference(a, b, i) && a[i] < b[i] {
          assert FirstDifference(x, y, i - 1) && x[i - 1] < y[i - 1];
        }
        if i :| FirstDifference(x, y, i) && x[i] < y[i] {
          assert FirstDifference(a, b, i + 1) && a[i + 1] < b[i + 1];
        }
      }
    }
  }

  ghost predicate FirstDifference(a: Bytes, b: Bytes, i: int) {
    0 <= i < |a| && i < |b| && a[..i] == b[..i] && a[i] != b[i]
  }

  lemma DifferenceShifts(a: Bytes, b: Bytes, i: nat)
    requires a != [] && b != [] && a[0] == b[0]
    ensures FirstDifference(a[1..], b[1..], i) <==> FirstDifference(a, b, i + 1)
  {
    if i < |a| - 1 && i < |b| - 1 {
      assert a[..i + 1] == [a[0]] + a[1..][..i] && b[..i + 1] == [b[0]] + b[1..][..i];
      assert a[1..][..i] == a[..i + 1][1..] && b[1..][..i] == b[..i + 1][1..];
    }
  }

  /** Paths strictly increase along the list. */
  predicate Sorted(list: seq<Source>) {
    forall i, j :: 0 <= i < j < |list| ==> Before(list[i].path, list[j].path)
  }

  predicate UniquePaths(list: seq<Source>) {
    forall i, j :: 0 <= i < j < |list| ==> list[i].path != list[j].path
  }

  // ----- framing -----

  predicate Framed(b: Bytes) { |b| < U64_SIZE }

  predicate Fits(s: Source) { Framed(s.path) && (s.content.Some? ==> Framed(s.content.value)) }

  function Frame(b: Bytes): Bytes { BigEndian(|b|, LENGTH_BYTES) + b }

  function Encoded(s: Source): Bytes {
    Frame(s.path) + if s.content.Some? then [1] + Frame(s.content.value) else [0]
  }

  function Snapshot(list: seq<Source>): Bytes {
    if list == [] then [] else Encoded(list[0]) + Snapshot(list[1..])
  }

  function FromBigEndian(b: Bytes): nat {
    if b == [] then 0 else 256 * FromBigEndian(b[..|b| - 1]) + b[|b| - 1]
  }

  function Power256(n: nat): nat { if n == 0 then 1 else 256 * Power256(n - 1) }

  lemma {:induction false} BigEndianReads(n: nat, count: nat)
    requires n < Power256(count)
    ensures FromBigEndian(BigEndian(n, count)) == n
  {
    if count > 0 {
      BigEndianReads(n / 256, count - 1);
      assert BigEndian(n, count)[..|BigEndian(n, count)| - 1] == BigEndian(n / 256, count - 1);
    }
  }

  lemma LengthReads(b: Bytes)
    requires Framed(b)
    ensures |BigEndian(|b|, LENGTH_BYTES)| == LENGTH_BYTES
    ensures FromBigEndian(BigEndian(|b|, LENGTH_BYTES)) == |b|
  {
    BigEndianSize(|b|, LENGTH_BYTES);
    assert Power256(8) == U64_SIZE;
    BigEndianReads(|b|, LENGTH_BYTES);
  }

  /** A frame says where it ends. */
  lemma FrameEnds(a: Bytes, b: Bytes, restA: Bytes, restB: Bytes)
    requires Framed(a) && Framed(b)
    requires Frame(a) + restA == Frame(b) + restB
    ensures a == b && restA == restB
  {
    LengthReads(a);
    LengthReads(b);
    var x, y := Frame(a) + restA, Frame(b) + restB;
    assert x[..LENGTH_BYTES] == BigEndian(|a|, LENGTH_BYTES);
    assert y[..LENGTH_BYTES] == BigEndian(|b|, LENGTH_BYTES);
    assert |a| == |b|;
    assert a == x[LENGTH_BYTES..LENGTH_BYTES + |a|] && b == y[LENGTH_BYTES..LENGTH_BYTES + |b|];
    assert restA == x[LENGTH_BYTES + |a|..] && restB == y[LENGTH_BYTES + |b|..];
  }

  lemma SourceEnds(a: Source, b: Source, restA: Bytes, restB: Bytes)
    requires Fits(a) && Fits(b)
    requires Encoded(a) + restA == Encoded(b) + restB
    ensures a == b && restA == restB
  {
    hide Frame;
    var tailA := if a.content.Some? then [1] + Frame(a.content.value) else [0];
    var tailB := if b.content.Some? then [1] + Frame(b.content.value) else [0];
    assert Encoded(a) + restA == Frame(a.path) + (tailA + restA);
    assert Encoded(b) + restB == Frame(b.path) + (tailB + restB);
    FrameEnds(a.path, b.path, tailA + restA, tailB + restB);
    assert (tailA + restA)[0] == tailA[0] && (tailB + restB)[0] == tailB[0];
    if a.content.Some? {
      assert (tailA + restA)[1..] == Frame(a.content.value) + restA;
      assert (tailB + restB)[1..] == Frame(b.content.value) + restB;
      FrameEnds(a.content.value, b.content.value, restA, restB);
    } else {
      assert restA == (tailA + restA)[1..] && restB == (tailB + restB)[1..];
    }
  }

  lemma {:induction false} SnapshotDetermines(a: seq<Source>, b: seq<Source>)
    requires (forall i :: 0 <= i < |a| ==> Fits(a[i])) && (forall i :: 0 <= i < |b| ==> Fits(b[i]))
    requires Snapshot(a) == Snapshot(b)
    ensures a == b
    decreases |a|
  {
    if a == [] || b == [] {
      forall s: Source ensures Encoded(s) != [] { assert 0 < |Encoded(s)|; }
    } else {
      SourceEnds(a[0], b[0], Snapshot(a[1..]), Snapshot(b[1..]));
      SnapshotDetermines(a[1..], b[1..]);
      assert a == [a[0]] + a[1..] && b == [b[0]] + b[1..];
    }
  }

  // ----- sorting -----

  lemma SameHead(a: seq<Source>, b: seq<Source>)
    requires Sorted(a) && Sorted(b) && multiset(a) == multiset(b) && a != [] && b != []
    ensures a[0] == b[0]
  {
    assert a[0] in multiset(b) && b[0] in multiset(a);
    var i :| 0 <= i < |b| && b[i] == a[0];
    var j :| 0 <= j < |a| && a[j] == b[0];
    BeforeStrict(a[0].path, b[0].path);
  }

  lemma MultisetTail(a: seq<Source>)
    requires a != []
    ensures multiset(a[1..]) == multiset(a) - multiset{a[0]}
  {
    assert a == [a[0]] + a[1..];
  }

  /** Two sorted lists of the same sources are the same list. */
  lemma {:induction false} SortedIsUnique(a: seq<Source>, b: seq<Source>)
    requires Sorted(a) && Sorted(b) && multiset(a) == multiset(b)
    ensures a == b
    decreases |a|
  {
    assert |a| == |multiset(a)| && |b| == |multiset(b)|;
    if a != [] {
      SameHead(a, b);
      MultisetTail(a);
      MultisetTail(b);
      SortedIsUnique(a[1..], b[1..]);
      assert a == [a[0]] + a[1..] && b == [b[0]] + b[1..];
    }
  }

  method Place(sorted: seq<Source>, path: Bytes) returns (at: nat)
    ensures at <= |sorted|
    ensures forall i :: 0 <= i < at ==> Before(sorted[i].path, path)
    ensures at < |sorted| ==> !Before(sorted[at].path, path)
  {
    at := 0;
    while at < |sorted| && Before(sorted[at].path, path)
      invariant at <= |sorted|
      invariant forall i :: 0 <= i < at ==> Before(sorted[i].path, path)
    {
      at := at + 1;
    }
  }

  /** The sources by path, each path once. */
  method SortByPath(sources: seq<Source>) returns (sorted: seq<Source>)
    requires UniquePaths(sources)
    ensures Sorted(sorted) && multiset(sorted) == multiset(sources)
  {
    hide Before, Sorted, UniquePaths;
    sorted := [];
    assert Sorted([]) by { EmptySorted(); }
    for n := 0 to |sources|
      invariant Sorted(sorted) && multiset(sorted) == multiset(sources[..n])
    {
      var at := Place(sorted, sources[n].path);
      InsertSorted(sorted, sources[n], at, sources, n);
      assert sorted == sorted[..at] + sorted[at..];
      assert sources[..n + 1] == sources[..n] + [sources[n]];
      sorted := sorted[..at] + [sources[n]] + sorted[at..];
    }
    assert sources[..|sources|] == sources;
  }

  lemma EmptySorted()
    ensures Sorted([])
  {}

  lemma InsertSorted(sorted: seq<Source>, s: Source, at: nat, sources: seq<Source>, n: nat)
    requires Sorted(sorted) && at <= |sorted| && UniquePaths(sources) && n < |sources| && s == sources[n]
    requires multiset(sorted) == multiset(sources[..n])
    requires forall i :: 0 <= i < at ==> Before(sorted[i].path, s.path)
    requires at < |sorted| ==> !Before(sorted[at].path, s.path)
    ensures Sorted(sorted[..at] + [s] + sorted[at..])
  {
    forall i | at <= i < |sorted| ensures Before(s.path, sorted[i].path) {
      assert sorted[at] in multiset(sources[..n]);
      var k :| 0 <= k < n && sources[k] == sorted[at];
      BeforeTotal(s.path, sorted[at].path);
      if i > at { BeforeTransitive(s.path, sorted[at].path, sorted[i].path); }
    }
  }

  method FrameInto(out: Bytes, bytes: Bytes) returns (r: Bytes)
    ensures r == out + Frame(bytes)
  {
    r := out + BigEndian(|bytes|, LENGTH_BYTES);
    r := r + bytes;
  }

  method EncodeInto(out: Bytes, s: Source) returns (r: Bytes)
    ensures r == out + Encoded(s)
  {
    r := FrameInto(out, s.path);
    r := r + [if s.content.Some? then 1 else 0];
    if s.content.Some? {
      r := FrameInto(r, s.content.value);
    }
  }

  /** The bytes that are hashed: the tag and the sources in path order. */
  method SnapshotBytes(sources: seq<Source>) returns (framed: Bytes)
    requires UniquePaths(sources)
    ensures exists sorted ::
      Sorted(sorted) && multiset(sorted) == multiset(sources) && framed == TAG + Snapshot(sorted)
  {
    hide Sorted, Snapshot;
    var list := SortByPath(sources);
    framed := Encode(list);
  }

  method Encode(list: seq<Source>) returns (framed: Bytes)
    ensures framed == TAG + Snapshot(list)
  {
    hide Encoded;
    framed := TAG;
    assert list[0..] == list;
    for i := 0 to |list|
      invariant framed + Snapshot(list[i..]) == TAG + Snapshot(list)
    {
      Regroup(framed, Encoded(list[i]), Snapshot(list[i + 1..]));
      assert list[i..][1..] == list[i + 1..];
      framed := EncodeInto(framed, list[i]);
    }
    assert framed + [] == framed;
  }

  /** Snapshots of lists with unique paths hash the same bytes exactly when the lists name the same
      sources, whatever order they come in. */
  lemma SnapshotIdentifiesSources(a: seq<Source>, b: seq<Source>, sortedA: seq<Source>, sortedB: seq<Source>)
    requires UniquePaths(a) && UniquePaths(b)
    requires (forall i :: 0 <= i < |a| ==> Fits(a[i])) && (forall i :: 0 <= i < |b| ==> Fits(b[i]))
    requires Sorted(sortedA) && multiset(sortedA) == multiset(a)
    requires Sorted(sortedB) && multiset(sortedB) == multiset(b)
    ensures TAG + Snapshot(sortedA) == TAG + Snapshot(sortedB) <==> multiset(a) == multiset(b)
  {
    if TAG + Snapshot(sortedA) == TAG + Snapshot(sortedB) {
      assert Snapshot(sortedA) == (TAG + Snapshot(sortedA))[|TAG|..];
      assert Snapshot(sortedB) == (TAG + Snapshot(sortedB))[|TAG|..];
      AllFit(a, sortedA);
      AllFit(b, sortedB);
      SnapshotDetermines(sortedA, sortedB);
    }
    if multiset(a) == multiset(b) {
      SortedIsUnique(sortedA, sortedB);
    }
  }

  lemma AllFit(a: seq<Source>, sorted: seq<Source>)
    requires (forall i :: 0 <= i < |a| ==> Fits(a[i])) && multiset(sorted) == multiset(a)
    ensures forall i :: 0 <= i < |sorted| ==> Fits(sorted[i])
  {
    forall i | 0 <= i < |sorted| ensures Fits(sorted[i]) {
      assert sorted[i] in multiset(a);
    }
  }
}
