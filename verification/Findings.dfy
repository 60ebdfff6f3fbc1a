/** Verified findings: each finding is resolved against the review it names, refused or accepted
    once, and an accepted one becomes a note on something the review has. A hunk's address is a
    given function of its path and itself. */
module Findings {
  import opened Prelude
  import opened Machine
  import opened PatchHunk

  const MAX_FINDINGS: nat := 10_000

  // ----- the review -----

  datatype File = File(path: string, hunks: seq<Hunk>)
  datatype Side = New | Old

  type Addressing = (string, Hunk) -> string

  /** A hunk's place in the review: its file section and its number there. */
  datatype Place = Place(file: nat, hunk: nat)

  predicate Holds(files: seq<File>, p: Place) {
    p.file < |files| && p.hunk < |files[p.file].hunks|
  }

  /** A place in a section with `path`. */
  predicate At(files: seq<File>, p: Place, path: string) {
    Holds(files, p) && files[p.file].path == path
  }

  function HunkAt(files: seq<File>, p: Place): Hunk
    requires Holds(files, p)
  {
    files[p.file].hunks[p.hunk]
  }

  function AddressAt(files: seq<File>, addressing: Addressing, p: Place): string
    requires Holds(files, p)
  {
    addressing(files[p.file].path, HunkAt(files, p))
  }

  /** Review order. */
  predicate Before(p: Place, q: Place) {
    p.file < q.file || (p.file == q.file && p.hunk < q.hunk)
  }

  /** `found` is the first place in review order with `address`, or there is none. */
  ghost predicate FirstWith(files: seq<File>, addressing: Addressing, address: string, found: Option<Place>) {
    match found
    case None => forall p :: Holds(files, p) ==> AddressAt(files, addressing, p) != address
    case Some(f) =>
      && Holds(files, f) && AddressAt(files, addressing, f) == address
      && forall p :: Holds(files, p) && Before(p, f) ==> AddressAt(files, addressing, p) != address
  }

  lemma FirstIsUnique(files: seq<File>, addressing: Addressing, address: string, a: Option<Place>, b: Option<Place>)
    requires FirstWith(files, addressing, address, a) && FirstWith(files, addressing, address, b)
    ensures a == b
  {}

  /** Every address in the map stands at its first place, before `end`. */
  ghost predicate FirstOnly(files: seq<File>, addressing: Addressing, m: map<string, Place>, end: Place) {
    forall a :: a in m ==> Before(m[a], end) && FirstWith(files, addressing, a, Some(m[a]))
  }

  /** Every address of a place before `end` is in the map. */
  ghost predicate Covers(files: seq<File>, addressing: Addressing, m: map<string, Place>, end: Place) {
    forall p :: Holds(files, p) && Before(p, end) ==> AddressAt(files, addressing, p) in m
  }

  ghost predicate Indexes(files: seq<File>, addressing: Addressing, m: map<string, Place>, end: Place) {
    FirstOnly(files, addressing, m, end) && Covers(files, addressing, m, end)
  }

  class Addresses {
    const files: seq<File>
    const addressing: Addressing
    var byAddress: Option<map<string, Place>>

    ghost predicate Valid()
      reads this
    {
      byAddress.Some? ==> Indexes(files, addressing, byAddress.value, Place(|files|, 0))
    }

    constructor (files: seq<File>, addressing: Addressing)
      ensures Valid() && this.files == files && this.addressing == addressing
    {
      this.files, this.addressing, byAddress := files, addressing, None;
    }

    /** The place a scan in review order would find, from a map built the first time it is asked. */
    method Find(address: string) returns (found: Option<Place>)
      requires Valid()
      modifies this
      ensures Valid() && FirstWith(files, addressing, address, found)
    {
      if byAddress.None? {
        var built := BuildIndex(files, addressing);
        byAddress := Some(built);
      }
      var m := byAddress.value;
      found := if address in m then Some(m[address]) else None;
    }
  }

  method BuildIndex(files: seq<File>, addressing: Addressing) returns (m: map<string, Place>)
    ensures Indexes(files, addressing, m, Place(|files|, 0))
  {
    hide Indexes;
    m := map[];
    EmptyIndex(files, addressing);
    for f := 0 to |files|
      invariant Indexes(files, addressing, m, Place(f, 0))
    {
      for h := 0 to |files[f].hunks|
        invariant Indexes(files, addressing, m, Place(f, h))
      {
        var a := addressing(files[f].path, files[f].hunks[h]);
        IndexOne(files, addressing, m, Place(f, h));
        if a !in m {
          m := m[a := Place(f, h)];
        }
      }
      NextSection(files, addressing, m, f);
    }
  }

  lemma EmptyIndex(files: seq<File>, addressing: Addressing)
    ensures Indexes(files, addressing, map[], Place(0, 0))
  {}

  /** Entering a hunk's address when it is new keeps the map an index. */
  lemma IndexOne(files: seq<File>, addressing: Addressing, m: map<string, Place>, p: Place)
    requires Holds(files, p) && Indexes(files, addressing, m, p)
    ensures var a := AddressAt(files, addressing, p);
            Indexes(files, addressing, if a in m then m else m[a := p], Place(p.file, p.hunk + 1))
  {
    var a := AddressAt(files, addressing, p);
    if a !in m {
      NewIsFirst(files, addressing, m, p);
    }
    FirstKept(files, addressing, m, p);
    CoverGrows(files, addressing, m, p);
  }

  lemma FirstKept(files: seq<File>, addressing: Addressing, m: map<string, Place>, p: Place)
    requires Holds(files, p) && FirstOnly(files, addressing, m, p)
    requires var a := AddressAt(files, addressing, p); a !in m ==> FirstWith(files, addressing, a, Some(p))
    ensures var a := AddressAt(files, addressing, p);
            FirstOnly(files, addressing, if a in m then m else m[a := p], Place(p.file, p.hunk + 1))
  {
    hide FirstWith, AddressAt;
  }

  lemma CoverGrows(files: seq<File>, addressing: Addressing, m: map<string, Place>, p: Place)
    requires Holds(files, p) && Covers(files, addressing, m, p)
    ensures var a := AddressAt(files, addressing, p);
            Covers(files, addressing, if a in m then m else m[a := p], Place(p.file, p.hunk + 1))
  {
    hide AddressAt;
    BeforeNext(p);
  }

  lemma BeforeNext(p: Place)
    ensures forall q :: Before(q, Place(p.file, p.hunk + 1)) <==> Before(q, p) || q == p
  {}

  lemma NewIsFirst(files: seq<File>, addressing: Addressing, m: map<string, Place>, p: Place)
    requires Holds(files, p) && Indexes(files, addressing, m, p) && AddressAt(files, addressing, p) !in m
    ensures FirstWith(files, addressing, AddressAt(files, addressing, p), Some(p))
  {}

  lemma NextSection(files: seq<File>, addressing: Addressing, m: map<string, Place>, f: nat)
    requires f < |files| && Indexes(files, addressing, m, Place(f, |files[f].hunks|))
    ensures Indexes(files, addressing, m, Place(f + 1, 0))
  {
    assert forall q :: Holds(files, q) && Before(q, Place(f + 1, 0)) ==> Before(q, Place(f, |files[f].hunks|));
  }

  // ----- resolving one finding -----

  /** A finding with its fields decoded and its text cleaned, or the reason it never gets so far. */
  datatype Input = Blank | Unreadable(reason: Early) | Fields(f: Finding)
  datatype Early = Malformed | StaleReview | TooLong
  datatype Finding = Finding(agent: string, title: string, path: Option<string>, address: Option<string>,
                             line: Option<u32>, side: Side)
  datatype Refusal = NotReadable(reason: Early) | UnknownPath | UnknownAddress | LineOutsideHunk | Duplicate
  datatype AnchorKind = ByAddress | ByLine | ByFile
  datatype Accepted = Accepted(index: nat, agent: string, title: string, path: string, anchor: AnchorKind,
                               address: Option<string>, line: Option<(Side, u32)>)
  datatype Refused = Refused(index: nat, reason: Refusal)

  predicate OnLine(l: Line, side: Side, number: u32) {
    (if side == New then l.newLine else l.oldLine) == Some(number)
  }

  predicate LineIn(h: Hunk, side: Side, number: u32) {
    exists i :: 0 <= i < |h.lines| && OnLine(h.lines[i], side, number)
  }

  /** The first hunk of a section that holds the line, or the number of its hunks. */
  function HunkWithLine(hunks: seq<Hunk>, side: Side, number: u32): (h: nat)
    ensures h <= |hunks| && (h < |hunks| ==> LineIn(hunks[h], side, number))
    ensures forall i :: 0 <= i < h ==> !LineIn(hunks[i], side, number)
  {
    if hunks == [] || LineIn(hunks[0], side, number) then 0
    else
      var h := HunkWithLine(hunks[1..], side, number);
      assert forall i :: 0 < i < |hunks| ==> hunks[i] == hunks[1..][i - 1];
      h + 1
  }

  lemma SkipSection(files: seq<File>, path: string)
    requires files != []
    ensures forall q :: At(files, q, path) && q.file > 0 ==>
              && At(files[1..], Place(q.file - 1, q.hunk), path)
              && HunkAt(files, q) == HunkAt(files[1..], Place(q.file - 1, q.hunk))
  {}

  /** The first section with the path that holds the line, and the hunk there. */
  function SectionWithLine(files: seq<File>, path: string, side: Side, number: u32): (p: Option<Place>)
    ensures p.Some? ==> At(files, p.value, path) && LineIn(HunkAt(files, p.value), side, number)
    ensures forall q :: At(files, q, path) && (p.Some? ==> Before(q, p.value)) ==>
              !LineIn(HunkAt(files, q), side, number)
  {
    if files == [] then None
    else if files[0].path == path && HunkWithLine(files[0].hunks, side, number) < |files[0].hunks| then
      Some(Place(0, HunkWithLine(files[0].hunks, side, number)))
    else
      var p := SectionWithLine(files[1..], path, side, number);
      SkipSection(files, path);
      if p.None? then None else Some(Place(p.value.file + 1, p.value.hunk))
  }

  predicate HasPath(files: seq<File>, path: string) {
    exists i :: 0 <= i < |files| && files[i].path == path
  }

  /** Resolve a finding's anchor; `found` is where its address is. */
  function Check(files: seq<File>, addressing: Addressing, f: Finding, found: Option<Place>, index: nat)
    : Result<Accepted, Refusal>
    requires f.address.Some? && found.Some? ==> Holds(files, found.value)
  {
    if f.address.Some? then
      if found.None? || (f.path.Some? && f.path.value != files[found.value.file].path) then Err(UnknownAddress)
      else
        var h, path := HunkAt(files, found.value), files[found.value.file].path;
        if f.line.Some? && !LineIn(h, f.side, f.line.value) then Err(LineOutsideHunk)
        else Ok(Accepted(index, f.agent, f.title, path, ByAddress, Some(addressing(path, h)), LineOf(f)))
    else if f.path.None? then Err(NotReadable(Malformed))
    else if !HasPath(files, f.path.value) then Err(UnknownPath)
    else if f.line.None? then Ok(Accepted(index, f.agent, f.title, f.path.value, ByFile, None, None))
    else
      var p := SectionWithLine(files, f.path.value, f.side, f.line.value);
      if p.None? then Err(LineOutsideHunk)
      else Ok(Accepted(index, f.agent, f.title, f.path.value, ByLine,
                       Some(addressing(f.path.value, HunkAt(files, p.value))), LineOf(f)))
  }

  function LineOf(f: Finding): Option<(Side, u32)> {
    if f.line.Some? then Some((f.side, f.line.value)) else None
  }

  /** An accepted finding points at something the review has: a section with its path and, when it
      has an address, a hunk there with that address that holds its line. */
  ghost predicate Grounded(files: seq<File>, addressing: Addressing, a: Accepted) {
    && HasPath(files, a.path)
    && (a.address.None? ==> a.line.None?)
    && (a.address.Some? ==> exists p ::
          && At(files, p, a.path) && AddressAt(files, addressing, p) == a.address.value
          && (a.line.Some? ==> LineIn(HunkAt(files, p), a.line.value.0, a.line.value.1)))
  }

  lemma CheckGrounds(files: seq<File>, addressing: Addressing, f: Finding, found: Option<Place>, index: nat)
    requires f.address.Some? ==> FirstWith(files, addressing, f.address.value, found)
    requires f.address.None? ==> found.None?
    requires Check(files, addressing, f, found, index).Ok?
    ensures Grounded(files, addressing, Check(files, addressing, f, found, index).value)
  {
    var a := Check(files, addressing, f, found, index).value;
    if f.address.Some? {
      assert AddressAt(files, addressing, found.value) == a.address.value;
    } else if f.line.Some? {
      var p := SectionWithLine(files, f.path.value, f.side, f.line.value);
      assert AddressAt(files, addressing, p.value) == a.address.value;
    }
  }

  /** A finding anchored by path is refused exactly when the review lacks what it names: no section
      has the path, or no section with the path holds the line. */
  lemma PathFindingsResolve(files: seq<File>, addressing: Addressing, f: Finding, index: nat)
    requires f.address.None? && f.path.Some?
    ensures var r := Check(files, addressing, f, None, index);
            && (r == Err(UnknownPath) <==> !HasPath(files, f.path.value))
            && (r == Err(LineOutsideHunk) <==>
                  && HasPath(files, f.path.value) && f.line.Some?
                  && forall p :: At(files, p, f.path.value) ==> !LineIn(HunkAt(files, p), f.side, f.line.value))
            && (r.Ok? || r == Err(UnknownPath) || r == Err(LineOutsideHunk))
  {
    if f.line.Some? {
      var p := SectionWithLine(files, f.path.value, f.side, f.line.value);
      assert p.Some? ==> Holds(files, p.value);
    }
  }

  /** A finding anchored by address is refused exactly when no hunk has the address, when the first
      that has it is in a section with another path than the finding's, or when that hunk lacks the
      finding's line. */
  lemma AddressFindingsResolve(files: seq<File>, addressing: Addressing, f: Finding, found: Option<Place>, index: nat)
    requires f.address.Some? && FirstWith(files, addressing, f.address.value, found)
    ensures var r := Check(files, addressing, f, found, index);
            && (r == Err(UnknownAddress) <==>
                  found.None? || (f.path.Some? && f.path.value != files[found.value.file].path))
            && (r == Err(LineOutsideHunk) <==>
                  && found.Some? && (f.path.Some? ==> f.path.value == files[found.value.file].path)
                  && f.line.Some? && !LineIn(HunkAt(files, found.value), f.side, f.line.value))
            && (r.Ok? || r == Err(UnknownAddress) || r == Err(LineOutsideHunk))
  {
    FoundHolds(files, addressing, f.address.value, found);
  }

  /** A finding that names neither a path nor an address is malformed, and no other that got so far. */
  lemma NamelessIsMalformed(files: seq<File>, addressing: Addressing, f: Finding, found: Option<Place>, index: nat)
    requires f.address.Some? ==> FirstWith(files, addressing, f.address.value, found)
    requires f.address.None? ==> found.None?
    ensures Check(files, addressing, f, found, index) == Err(NotReadable(Malformed)) <==>
              f.address.None? && f.path.None?
  {
    if f.address.Some? {
      AddressFindingsResolve(files, addressing, f, found, index);
    } else if f.path.Some? {
      PathFindingsResolve(files, addressing, f, index);
    }
  }

  /** An accepted finding is the finding: its agent, title, path, address, line and side, at its
      index, with the kind of anchor it used; one by line gets the address of the first hunk in review
      order that holds the line in a section with the path. */
  lemma AcceptedIsTheFinding(files: seq<File>, addressing: Addressing, f: Finding, found: Option<Place>, index: nat)
    requires f.address.Some? ==> FirstWith(files, addressing, f.address.value, found)
    requires f.address.None? ==> found.None?
    requires Check(files, addressing, f, found, index).Ok?
    ensures var a := Check(files, addressing, f, found, index).value;
            && a.index == index && a.agent == f.agent && a.title == f.title
            && (f.path.Some? ==> a.path == f.path.value)
            && (f.address.Some? ==> a.address == f.address && a.path == files[found.value.file].path)
            && (a.line.Some? <==> f.line.Some?) && (f.line.Some? ==> a.line.value == (f.side, f.line.value))
            && a.anchor == (if f.address.Some? then ByAddress else if f.line.Some? then ByLine else ByFile)
            && (a.anchor == ByFile ==> a.address.None?)
            && (a.anchor == ByLine ==> exists p ::
                  && At(files, p, a.path) && LineIn(HunkAt(files, p), f.side, f.line.value)
                  && a.address == Some(AddressAt(files, addressing, p))
                  && forall q :: At(files, q, a.path) && Before(q, p) ==>
                       !LineIn(HunkAt(files, q), f.side, f.line.value))
  {
    hide LineIn;
    if f.address.None? && f.line.Some? {
      var p := SectionWithLine(files, f.path.value, f.side, f.line.value);
      assert At(files, p.value, f.path.value);
    }
  }

  // ----- notes -----

  datatype Anchor = FileAnchor(path: string) | HunkAnchor(path: string, hunkId: u64)

  ghost predicate ValidateAnchor(anchor: Anchor, files: seq<File>) {
    exists i :: 0 <= i < |files| && files[i].path == anchor.path &&
      (anchor.HunkAnchor? ==> exists h :: 0 <= h < |files[i].hunks| && files[i].hunks[h].id == anchor.hunkId)
  }

  /** An anchor is valid exactly when a section has its path and, for a hunk, holds one with its id. */
  lemma AnchorsAreValidExactly(files: seq<File>, anchor: Anchor)
    ensures ValidateAnchor(anchor, files) <==>
              match anchor
              case FileAnchor(path) => HasPath(files, path)
              case HunkAnchor(path, id) => exists p :: At(files, p, path) && HunkAt(files, p).id == id
  {
    if anchor.HunkAnchor? {
      if i, h :| 0 <= i < |files| && files[i].path == anchor.path &&
                 0 <= h < |files[i].hunks| && files[i].hunks[h].id == anchor.hunkId {
        assert At(files, Place(i, h), anchor.path) && HunkAt(files, Place(i, h)).id == anchor.hunkId;
      }
      if p :| At(files, p, anchor.path) && HunkAt(files, p).id == anchor.hunkId {
        assert files[p.file].hunks[p.hunk].id == anchor.hunkId;
      }
    }
  }

  function HunkWithAddress(path: string, hunks: seq<Hunk>, addressing: Addressing, address: string): (h: nat)
    ensures h <= |hunks| && (h < |hunks| ==> addressing(path, hunks[h]) == address)
    ensures forall i :: 0 <= i < h ==> addressing(path, hunks[i]) != address
  {
    if hunks == [] || addressing(path, hunks[0]) == address then 0
    else
      var h := HunkWithAddress(path, hunks[1..], addressing, address);
      assert forall i :: 0 < i < |hunks| ==> hunks[i] == hunks[1..][i - 1];
      h + 1
  }

  function SectionWithAddress(files: seq<File>, path: string, addressing: Addressing, address: string)
    : (p: Option<Place>)
    ensures p.Some? ==> At(files, p.value, path) && AddressAt(files, addressing, p.value) == address
    ensures forall q :: At(files, q, path) && (p.Some? ==> Before(q, p.value)) ==>
              AddressAt(files, addressing, q) != address
  {
    if files == [] then None
    else if files[0].path == path && HunkWithAddress(path, files[0].hunks, addressing, address) < |files[0].hunks| then
      Some(Place(0, HunkWithAddress(path, files[0].hunks, addressing, address)))
    else
      var p := SectionWithAddress(files[1..], path, addressing, address);
      SkipSection(files, path);
      if p.None? then None else Some(Place(p.value.file + 1, p.value.hunk))
  }

  /** The hunk the note of an accepted finding goes on: the first in the sections with its path that
      has its address. */
  function NotePlace(files: seq<File>, addressing: Addressing, a: Accepted): Option<Place> {
    if a.address.Some? then SectionWithAddress(files, a.path, addressing, a.address.value) else None
  }

  function NoteAnchor(files: seq<File>, addressing: Addressing, a: Accepted): Anchor {
    var p := NotePlace(files, addressing, a);
    if p.None? then FileAnchor(a.path) else HunkAnchor(a.path, HunkAt(files, p.value).id)
  }

  /** A grounded finding's note is on something that exists: on a hunk that has the finding's path
      and address when it names one, and otherwise on its file. */
  lemma NotesAreAnchored(files: seq<File>, addressing: Addressing, a: Accepted)
    requires Grounded(files, addressing, a)
    ensures ValidateAnchor(NoteAnchor(files, addressing, a), files)
    ensures a.address.None? ==> NoteAnchor(files, addressing, a) == FileAnchor(a.path)
    ensures a.address.Some? ==> exists p ::
              && At(files, p, a.path) && AddressAt(files, addressing, p) == a.address.value
              && NoteAnchor(files, addressing, a) == HunkAnchor(a.path, HunkAt(files, p).id)
  {
    if a.address.Some? {
      var p := NotePlace(files, addressing, a);
      assert p.Some?;
      assert files[p.value.file].hunks[p.value.hunk].id == NoteAnchor(files, addressing, a).hunkId;
    }
  }

  /** The note of a finding by address is on the very hunk the address resolved to, which holds the
      finding's line. */
  lemma AddressNotesAreExact(files: seq<File>, addressing: Addressing, f: Finding, found: Option<Place>, index: nat)
    requires f.address.Some? && FirstWith(files, addressing, f.address.value, found)
    requires Check(files, addressing, f, found, index).Ok?
    ensures NotePlace(files, addressing, Check(files, addressing, f, found, index).value) == found
    ensures f.line.Some? ==> LineIn(HunkAt(files, found.value), f.side, f.line.value)
  {
    var a := Check(files, addressing, f, found, index).value;
    var p := NotePlace(files, addressing, a);
    assert At(files, found.value, a.path) && AddressAt(files, addressing, found.value) == a.address.value;
    assert p.Some?;
    assert !Before(p.value, found.value) && !Before(found.value, p.value);
  }

  /** If a finding by line is accepted, its note is on a hunk that holds the line. */
  predicate NoteHoldsLine(files: seq<File>, addressing: Addressing, f: Finding)
    requires f.address.None? && f.line.Some?
  {
    var r := Check(files, addressing, f, None, 0);
    r.Ok? ==>
      var p := NotePlace(files, addressing, r.value);
      p.Some? && LineIn(HunkAt(files, p.value), f.side, f.line.value)
  }

  /** Every hunk of the review is `proper`. */
  ghost predicate AllProper(files: seq<File>, proper: Hunk -> bool) {
    forall p :: Holds(files, p) ==> proper(HunkAt(files, p))
  }

  /** Proper hunks of one path with one address hold the same lines. */
  ghost predicate Separates(addressing: Addressing, proper: Hunk -> bool) {
    forall path, h1, h2, side, number ::
      proper(h1) && proper(h2) && addressing(path, h1) == addressing(path, h2) && LineIn(h1, side, number) ==>
      LineIn(h2, side, number)
  }

  /** The note of every finding by line is on a hunk that holds the line, in every review of proper
      hunks. */
  ghost predicate LineNotesHold(addressing: Addressing, proper: Hunk -> bool) {
    forall files, f: Finding :: AllProper(files, proper) && f.address.None? && f.line.Some? ==>
      NoteHoldsLine(files, addressing, f)
  }

  /** Whatever hunks count as proper, that is so exactly when the addresses tell apart proper hunks
      that hold different lines. */
  lemma LineNotesHoldExactly(addressing: Addressing, proper: Hunk -> bool)
    ensures Separates(addressing, proper) <==> LineNotesHold(addressing, proper)
  {
    hide NoteHoldsLine, LineIn, AllProper;
    if Separates(addressing, proper) {
      forall files, f: Finding | AllProper(files, proper) && f.address.None? && f.line.Some?
        ensures NoteHoldsLine(files, addressing, f)
      {
        SeparatedNotes(files, addressing, proper, f);
      }
    } else {
      var path, h1, h2, side, number :|
        && proper(h1) && proper(h2) && addressing(path, h1) == addressing(path, h2)
        && LineIn(h1, side, number) && !LineIn(h2, side, number);
      CollisionMisleads(addressing, path, h2, h1, side, number);
      TwoProper(path, h2, h1, proper);
    }
  }

  lemma TwoProper(path: string, h1: Hunk, h2: Hunk, proper: Hunk -> bool)
    requires proper(h1) && proper(h2)
    ensures AllProper([File(path, [h1, h2])], proper)
  {
    var files := [File(path, [h1, h2])];
    forall p | Holds(files, p) ensures proper(HunkAt(files, p)) {
      assert p.file == 0 && (p.hunk == 0 || p.hunk == 1);
    }
  }

  lemma SeparatedNotes(files: seq<File>, addressing: Addressing, proper: Hunk -> bool, f: Finding)
    requires Separates(addressing, proper) && AllProper(files, proper) && f.address.None? && f.line.Some?
    ensures NoteHoldsLine(files, addressing, f)
  {
    hide LineIn;
    var r := Check(files, addressing, f, None, 0);
    if r.Ok? {
      var p := SectionWithLine(files, f.path.value, f.side, f.line.value).value;
      var q := NotePlace(files, addressing, r.value);
      assert AddressAt(files, addressing, p) == r.value.address.value;
      assert q.Some?;
      assert addressing(f.path.value, HunkAt(files, p)) == addressing(f.path.value, HunkAt(files, q.value));
    }
  }

  /** Two hunks with one address, the line only in the second: its note goes on the first. */
  lemma CollisionMisleads(addressing: Addressing, path: string, h1: Hunk, h2: Hunk, side: Side, number: u32)
    requires addressing(path, h1) == addressing(path, h2)
    requires !LineIn(h1, side, number) && LineIn(h2, side, number)
    ensures !NoteHoldsLine([File(path, [h1, h2])], addressing, Finding("", "", Some(path), None, Some(number), side))
  {
    hide LineIn;
    var files, f := [File(path, [h1, h2])], Finding("", "", Some(path), None, Some(number), side);
    assert files[0].path == path;
    var first, second := Place(0, 0), Place(0, 1);
    assert At(files, first, path) && HunkAt(files, first) == h1;
    assert At(files, second, path) && HunkAt(files, second) == h2;
    var p := SectionWithLine(files, path, side, number);
    assert p == Some(second);
    var r := Check(files, addressing, f, None, 0);
    assert r.Ok? && r.value.address == Some(addressing(path, h2));
    var q := NotePlace(files, addressing, r.value);
    assert q.Some? && !Before(first, q.value);
    assert q == Some(first);
  }

  // ----- the loop over findings -----

  datatype Key = Key(agent: string, title: string, path: string, address: Option<string>, line: Option<(Side, u32)>)

  function KeyOf(a: Accepted): Key { Key(a.agent, a.title, a.path, a.address, a.line) }

  /** Two findings are the same exactly when agent, title, path, address and line are. */
  lemma KeysAgreeExactly(a: Accepted, b: Accepted)
    ensures KeyOf(a) == KeyOf(b) <==>
              a.agent == b.agent && a.title == b.title && a.path == b.path && a.address == b.address && a.line == b.line
  {}

  /** The findings that are not blank, in order. */
  function NonBlank(inputs: seq<Input>): seq<Input> {
    if inputs == [] then []
    else
      var front := NonBlank(inputs[..|inputs| - 1]);
      if inputs[|inputs| - 1].Blank? then front else front + [inputs[|inputs| - 1]]
  }

  datatype Verdict = Verdict(accepted: seq<Accepted>, refused: seq<Refused>, overLimit: nat)

  /** What a finding is by itself, before duplicates are looked for. */
  ghost predicate Judged(files: seq<File>, addressing: Addressing, input: Input, index: nat,
                         r: Result<Accepted, Refusal>)
  {
    match input
    case Blank => false
    case Unreadable(reason) => r == Err(NotReadable(reason))
    case Fields(f) => exists found: Option<Place> ::
      && (if f.address.Some? then FirstWith(files, addressing, f.address.value, found) else found.None?)
      && r == Check(files, addressing, f, found, index)
  }

  lemma JudgedFacts(files: seq<File>, addressing: Addressing, input: Input, index: nat, r: Result<Accepted, Refusal>)
    requires Judged(files, addressing, input, index, r)
    ensures r.Ok? ==> r.value.index == index && Grounded(files, addressing, r.value)
    ensures r.Err? ==> r.error != Duplicate
  {
    if input.Fields? {
      var f := input.f;
      var found: Option<Place> :|
        && (if f.address.Some? then FirstWith(files, addressing, f.address.value, found) else found.None?)
        && r == Check(files, addressing, f, found, index);
      if r.Ok? {
        CheckGrounds(files, addressing, f, found, index);
      }
    }
  }

  method Judge(addresses: Addresses, input: Input, index: nat) returns (r: Result<Accepted, Refusal>)
    requires addresses.Valid() && !input.Blank?
    modifies addresses
    ensures addresses.Valid()
    ensures Judged(addresses.files, addresses.addressing, input, index, r)
  {
    hide FirstWith, Indexes;
    if input.Unreadable? { return Err(NotReadable(input.reason)); }
    var found := None;
    if input.f.address.Some? {
      found := addresses.Find(input.f.address.value);
      FoundHolds(addresses.files, addresses.addressing, input.f.address.value, found);
    }
    r := Check(addresses.files, addresses.addressing, input.f, found, index);
  }

  lemma FoundHolds(files: seq<File>, addressing: Addressing, address: string, found: Option<Place>)
    requires FirstWith(files, addressing, address, found)
    ensures found.Some? ==> Holds(files, found.value)
  {}

  /** Accepted and refused findings, in input order, are together the first `m` and never the same. */
  ghost predicate Split(v: Verdict, m: nat) {
    && (forall i, j :: 0 <= i < j < |v.accepted| ==> v.accepted[i].index < v.accepted[j].index)
    && (forall i, j :: 0 <= i < j < |v.refused| ==> v.refused[i].index < v.refused[j].index)
    && (forall i :: 0 <= i < |v.accepted| ==> v.accepted[i].index < m)
    && (forall i :: 0 <= i < |v.refused| ==> v.refused[i].index < m)
    && (forall i, j :: 0 <= i < |v.accepted| && 0 <= j < |v.refused| ==> v.accepted[i].index != v.refused[j].index)
    && |v.accepted| + |v.refused| == m
    && (forall i :: 0 <= i < m ==> Answered(v, i))
  }

  ghost predicate Answered(v: Verdict, i: nat) {
    || (exists k :: 0 <= k < |v.accepted| && v.accepted[k].index == i)
    || (exists k :: 0 <= k < |v.refused| && v.refused[k].index == i)
  }

  lemma StillAnswered(v: Verdict, v': Verdict, i: nat)
    requires v.accepted <= v'.accepted && v.refused <= v'.refused
    requires Answered(v, i) || (v'.accepted != [] && v'.accepted[|v'.accepted| - 1].index == i) ||
             (v'.refused != [] && v'.refused[|v'.refused| - 1].index == i)
    ensures Answered(v', i)
  {
    if k :| 0 <= k < |v.accepted| && v.accepted[k].index == i {
      assert v'.accepted[k].index == i;
    } else if k :| 0 <= k < |v.refused| && v.refused[k].index == i {
      assert v'.refused[k].index == i;
    }
  }

  /** An accepted finding resolves, and no other accepted one has its key. */
  ghost predicate AcceptedWell(files: seq<File>, addressing: Addressing, nb: seq<Input>, accepted: seq<Accepted>) {
    && (forall i :: 0 <= i < |accepted| ==>
          && accepted[i].index < |nb|
          && Judged(files, addressing, nb[accepted[i].index], accepted[i].index, Ok(accepted[i])))
    && (forall i, j :: 0 <= i < j < |accepted| ==> KeyOf(accepted[i]) != KeyOf(accepted[j]))
  }

  /** A refused finding has a fault of its own, or repeats the key of an earlier accepted one. */
  ghost predicate RefusedWell(files: seq<File>, addressing: Addressing, nb: seq<Input>, accepted: seq<Accepted>,
                              r: Refused)
  {
    && r.index < |nb|
    && (r.reason != Duplicate ==> Judged(files, addressing, nb[r.index], r.index, Err(r.reason)))
    && (r.reason == Duplicate ==> exists a, j ::
          && Judged(files, addressing, nb[r.index], r.index, Ok(a))
          && 0 <= j < |accepted| && accepted[j].index < r.index && KeyOf(accepted[j]) == KeyOf(a))
  }

  ghost predicate Verified(files: seq<File>, addressing: Addressing, nb: seq<Input>, v: Verdict) {
    var m := if |nb| < MAX_FINDINGS then |nb| else MAX_FINDINGS;
    && v.overLimit == |nb| - m
    && Split(v, m)
    && AcceptedWell(files, addressing, nb, v.accepted)
    && forall i :: 0 <= i < |v.refused| ==> RefusedWell(files, addressing, nb, v.accepted, v.refused[i])
  }

  lemma AddAccepted(files: seq<File>, addressing: Addressing, nb: seq<Input>, x: Input, v: Verdict, a: Accepted)
    requires Verified(files, addressing, nb, v) && |nb| < MAX_FINDINGS && a.index == |nb|
    requires Judged(files, addressing, x, |nb|, Ok(a))
    requires forall i :: 0 <= i < |v.accepted| ==> KeyOf(v.accepted[i]) != KeyOf(a)
    ensures Verified(files, addressing, nb + [x], v.(accepted := v.accepted + [a]))
  {
    hide Judged;
    var nb', accepted := nb + [x], v.accepted + [a];
    forall i | 0 <= i < |nb'| ensures Answered(v.(accepted := accepted), i) {
      StillAnswered(v, v.(accepted := accepted), i);
    }
    assert Split(v.(accepted := accepted), |nb'|);
    forall i | 0 <= i < |v.refused| ensures RefusedWell(files, addressing, nb', accepted, v.refused[i]) {
      MoreAccepted(files, addressing, nb, x, v.accepted, [a], v.refused[i]);
    }
  }

  lemma AddRefused(files: seq<File>, addressing: Addressing, nb: seq<Input>, x: Input, v: Verdict, r: Refused)
    requires Verified(files, addressing, nb, v) && |nb| < MAX_FINDINGS && r.index == |nb|
    requires RefusedWell(files, addressing, nb + [x], v.accepted, r)
    ensures Verified(files, addressing, nb + [x], v.(refused := v.refused + [r]))
  {
    hide Judged;
    var nb', refused := nb + [x], v.refused + [r];
    forall i | 0 <= i < |nb'| ensures Answered(v.(refused := refused), i) {
      StillAnswered(v, v.(refused := refused), i);
    }
    assert Split(v.(refused := refused), |nb'|);
    assert v.accepted + [] == v.accepted;
    forall i | 0 <= i < |refused| ensures RefusedWell(files, addressing, nb', v.accepted, refused[i]) {
      if i < |v.refused| {
        MoreAccepted(files, addressing, nb, x, v.accepted, [], v.refused[i]);
      }
    }
  }

  lemma AddOver(files: seq<File>, addressing: Addressing, nb: seq<Input>, x: Input, v: Verdict)
    requires Verified(files, addressing, nb, v) && |nb| >= MAX_FINDINGS
    ensures Verified(files, addressing, nb + [x], v.(overLimit := v.overLimit + 1))
  {
    hide Judged;
    var v' := v.(overLimit := v.overLimit + 1);
    forall i | Answered(v, i) ensures Answered(v', i) {
      StillAnswered(v, v', i);
    }
    assert v.accepted + [] == v.accepted;
    forall i | 0 <= i < |v.refused| ensures RefusedWell(files, addressing, nb + [x], v.accepted, v.refused[i]) {
      MoreAccepted(files, addressing, nb, x, v.accepted, [], v.refused[i]);
    }
  }

  lemma MoreAccepted(files: seq<File>, addressing: Addressing, nb: seq<Input>, x: Input, accepted: seq<Accepted>,
                     more: seq<Accepted>, r: Refused)
    requires RefusedWell(files, addressing, nb, accepted, r)
    ensures RefusedWell(files, addressing, nb + [x], accepted + more, r)
  {
    hide Judged;
    if r.reason == Duplicate {
      var a, j :|
        && Judged(files, addressing, nb[r.index], r.index, Ok(a))
        && 0 <= j < |accepted| && accepted[j].index < r.index && KeyOf(accepted[j]) == KeyOf(a);
      assert (accepted + more)[j] == accepted[j];
    }
  }

  /** The keys of the accepted findings, in order. */
  ghost predicate Seen(seen: seq<Key>, accepted: seq<Accepted>) {
    |seen| == |accepted| && forall i :: 0 <= i < |seen| ==> seen[i] == KeyOf(accepted[i])
  }

  method VerifyFindings(files: seq<File>, addressing: Addressing, inputs: seq<Input>) returns (v: Verdict)
    ensures Verified(files, addressing, NonBlank(inputs), v)
  {
    hide Judged, Indexes, Verified;
    var addresses := new Addresses(files, addressing);
    v := Verdict([], [], 0);
    var seen: seq<Key> := [];
    var index := 0;
    NothingVerified(files, addressing);
    for k := 0 to |inputs|
      invariant addresses.Valid() && addresses.files == files && addresses.addressing == addressing
      invariant Verified(files, addressing, NonBlank(inputs[..k]), v)
      invariant Seen(seen, v.accepted)
      invariant index == if |NonBlank(inputs[..k])| < MAX_FINDINGS then |NonBlank(inputs[..k])| else MAX_FINDINGS
    {
      var raw := inputs[k];
      ghost var nb := NonBlank(inputs[..k]);
      assert inputs[..k + 1][..k] == inputs[..k];
      if raw.Blank? { continue; }
      assert NonBlank(inputs[..k + 1]) == nb + [raw];
      if index >= MAX_FINDINGS {
        AddOver(files, addressing, nb, raw, v);
        v := v.(overLimit := v.overLimit + 1);
        continue;
      }
      var r := Judge(addresses, raw, index);
      v, seen := Record(files, addressing, nb, raw, v, seen, r);
      index := index + 1;
    }
    assert inputs[..|inputs|] == inputs;
  }

  method Record(files: seq<File>, addressing: Addressing, ghost nb: seq<Input>, raw: Input, v: Verdict, seen: seq<Key>,
                r: Result<Accepted, Refusal>) returns (v': Verdict, seen': seq<Key>)
    requires Verified(files, addressing, nb, v) && Seen(seen, v.accepted) && |nb| < MAX_FINDINGS
    requires Judged(files, addressing, raw, |nb|, r)
    ensures Verified(files, addressing, nb + [raw], v') && Seen(seen', v'.accepted)
  {
    hide Judged;
    JudgedFacts(files, addressing, raw, |nb|, r);
    var index := |v.accepted| + |v.refused|;
    if r.Err? {
      AddRefused(files, addressing, nb, raw, v, Refused(index, r.error));
      v', seen' := v.(refused := v.refused + [Refused(index, r.error)]), seen;
    } else if KeyOf(r.value) in seen {
      ghost var j :| 0 <= j < |seen| && seen[j] == KeyOf(r.value);
      assert v.accepted[j].index < index && KeyOf(v.accepted[j]) == KeyOf(r.value);
      AddRefused(files, addressing, nb, raw, v, Refused(index, Duplicate));
      v', seen' := v.(refused := v.refused + [Refused(index, Duplicate)]), seen;
    } else {
      assert forall i :: 0 <= i < |v.accepted| ==> seen[i] == KeyOf(v.accepted[i]) && seen[i] in seen;
      AddAccepted(files, addressing, nb, raw, v, r.value);
      v', seen' := v.(accepted := v.accepted + [r.value]), seen + [KeyOf(r.value)];
    }
  }

  lemma NothingVerified(files: seq<File>, addressing: Addressing)
    ensures Verified(files, addressing, [], Verdict([], [], 0))
  {}

  lemma JudgedOnce(files: seq<File>, addressing: Addressing, input: Input, index: nat,
                   r: Result<Accepted, Refusal>, r': Result<Accepted, Refusal>)
    requires Judged(files, addressing, input, index, r) && Judged(files, addressing, input, index, r')
    ensures r == r'
  {
    if input.Fields? {
      var f := input.f;
      var found: Option<Place> :|
        && (if f.address.Some? then FirstWith(files, addressing, f.address.value, found) else found.None?)
        && r == Check(files, addressing, f, found, index);
      var found': Option<Place> :|
        && (if f.address.Some? then FirstWith(files, addressing, f.address.value, found') else found'.None?)
        && r' == Check(files, addressing, f, found', index);
      if f.address.Some? {
        FirstIsUnique(files, addressing, f.address.value, found, found');
      }
    }
  }

  /** A finding within the limit that resolves is refused as a duplicate exactly when an earlier
      accepted finding has its key; otherwise it is accepted as it resolved. */
  lemma DuplicatesExactly(files: seq<File>, addressing: Addressing, nb: seq<Input>, v: Verdict, i: nat, a: Accepted)
    requires Verified(files, addressing, nb, v)
    requires i < |nb| && i < MAX_FINDINGS && Judged(files, addressing, nb[i], i, Ok(a))
    ensures Refused(i, Duplicate) in v.refused <==>
              exists j :: 0 <= j < |v.accepted| && v.accepted[j].index < i && KeyOf(v.accepted[j]) == KeyOf(a)
    ensures Refused(i, Duplicate) in v.refused || a in v.accepted
  {
    hide Judged;
    assert Answered(v, i);
    if k :| 0 <= k < |v.accepted| && v.accepted[k].index == i {
      JudgedOnce(files, addressing, nb[i], i, Ok(a), Ok(v.accepted[k]));
    } else {
      var k :| 0 <= k < |v.refused| && v.refused[k].index == i;
      assert RefusedWell(files, addressing, nb, v.accepted, v.refused[k]);
      if v.refused[k].reason != Duplicate {
        JudgedOnce(files, addressing, nb[i], i, Ok(a), Err(v.refused[k].reason));
        assert false;
      }
      var b, j :|
        && Judged(files, addressing, nb[i], i, Ok(b))
        && 0 <= j < |v.accepted| && v.accepted[j].index < i && KeyOf(v.accepted[j]) == KeyOf(b);
      JudgedOnce(files, addressing, nb[i], i, Ok(a), Ok(b));
    }
  }

  /** Every accepted finding is grounded in the review, and its note has an anchor that exists. */
  lemma AcceptedAreGrounded(files: seq<File>, addressing: Addressing, nb: seq<Input>, v: Verdict, k: nat)
    requires Verified(files, addressing, nb, v) && k < |v.accepted|
    ensures Grounded(files, addressing, v.accepted[k])
    ensures ValidateAnchor(NoteAnchor(files, addressing, v.accepted[k]), files)
  {
    hide Judged;
    var a := v.accepted[k];
    JudgedFacts(files, addressing, nb[a.index], a.index, Ok(a));
    NotesAreAnchored(files, addressing, a);
  }

  // ----- notes under the program's own addresses -----

  /** A hash of the bytes `PatchHunk.Preimage` describes. */
  function Hashing(hash: string -> string): Addressing {
    (path, h) => hash(Preimage(path, h))
  }

  /** Hunks closed as the parser closes them. */
  function ClosedHunks(): Hunk -> bool { h => Closed(h) }

  ghost predicate Parsed(files: seq<File>) { AllProper(files, ClosedHunks()) }

  /** Two closed hunks of one path that hold different lines never hash to one address. */
  ghost predicate SeparatesClosed(hash: string -> string) {
    forall path, h1, h2, side, number ::
      && Closed(h1) && Closed(h2) && hash(Preimage(path, h1)) == hash(Preimage(path, h2))
      && LineIn(h1, side, number) ==>
      LineIn(h2, side, number)
  }

  /** With the program's addresses, the note of every finding by line is on a hunk that holds the
      line, in every review of closed hunks, exactly when the hash tells apart the closed hunks of one
      path that hold different lines. */
  lemma ParsedLineNotesHoldExactly(hash: string -> string)
    ensures SeparatesClosed(hash) <==>
              forall files, f: Finding :: Parsed(files) && f.address.None? && f.line.Some? ==>
                NoteHoldsLine(files, Hashing(hash), f)
  {
    hide NoteHoldsLine, LineIn, Closed, Preimage;
    LineNotesHoldExactly(Hashing(hash), ClosedHunks());
    if SeparatesClosed(hash) {
      assert Separates(Hashing(hash), ClosedHunks());
    } else {
      var path, h1, h2, side, number :|
        && Closed(h1) && Closed(h2) && hash(Preimage(path, h1)) == hash(Preimage(path, h2))
        && LineIn(h1, side, number) && !LineIn(h2, side, number);
      assert ClosedHunks()(h1) && ClosedHunks()(h2) && Hashing(hash)(path, h1) == Hashing(hash)(path, h2);
      assert !Separates(Hashing(hash), ClosedHunks());
    }
  }

  /** Only a true collision can fail it: closed hunks of one path that hold different lines hash
      different bytes. */
  lemma MisleadingIsACollision(hash: string -> string)
    requires !SeparatesClosed(hash)
    ensures exists x, y :: x != y && hash(x) == hash(y)
  {
    hide LineIn, Closed, Preimage;
    var path, h1, h2, side, number :|
      && Closed(h1) && Closed(h2) && hash(Preimage(path, h1)) == hash(Preimage(path, h2))
      && LineIn(h1, side, number) && !LineIn(h2, side, number);
    AddressDeterminesClosed(path, h1, path, h2);
    if SameHunk(h1, h2) {
      SameHunkSameLines(h1, h2, side, number);
    }
  }

  lemma SameHunkSameLines(h1: Hunk, h2: Hunk, side: Side, number: u32)
    requires SameHunk(h1, h2)
    ensures LineIn(h1, side, number) <==> LineIn(h2, side, number)
  {
    assert forall i :: 0 <= i < |h1.lines| ==>
             h1.lines[i].oldLine == h2.lines[i].oldLine && h1.lines[i].newLine == h2.lines[i].newLine;
  }

  /** The numbers themselves are not hashed: without the parser's numbering, hunks that hold
      different lines share an address under every hash. */
  lemma NumbersAreNotHashed(hash: string -> string)
    ensures !Separates(Hashing(hash), h => true)
  {
    var l1, l2 := Line(Added, "a", false, false, None, Some(1)), Line(Added, "a", false, false, None, Some(2));
    var h1, h2 := Hunk(0, Some(1), Some(1), None, [l1]), Hunk(0, Some(1), Some(1), None, [l2]);
    AddressDetermines("p", h1, "p", h2);
    hide Preimage;
    assert Hashing(hash)("p", h1) == Hashing(hash)("p", h2);
    assert LineIn(h1, New, 1) by { assert OnLine(h1.lines[0], New, 1); }
    assert !LineIn(h2, New, 1);
  }

  /** No two hunks of the review hash different bytes to one address. */
  ghost predicate NoCollision(files: seq<File>, hash: string -> string) {
    forall p, q ::
      Holds(files, p) && Holds(files, q) &&
      AddressAt(files, Hashing(hash), p) == AddressAt(files, Hashing(hash), q) ==>
      Preimage(files[p.file].path, HunkAt(files, p)) == Preimage(files[q.file].path, HunkAt(files, q))
  }

  /** Hunks of one path that share an address are copies, but for their ids, section headings and
      lossy marks. */
  lemma SharedAddressesAreCopies(files: seq<File>, hash: string -> string, path: string, p: Place, q: Place)
    requires Parsed(files) && NoCollision(files, hash) && At(files, p, path) && At(files, q, path)
    requires AddressAt(files, Hashing(hash), p) == AddressAt(files, Hashing(hash), q)
    ensures SameHunk(HunkAt(files, p), HunkAt(files, q))
  {
    hide Preimage, Closed;
    assert ClosedHunks()(HunkAt(files, p)) && ClosedHunks()(HunkAt(files, q));
    AddressDeterminesClosed(path, HunkAt(files, p), path, HunkAt(files, q));
  }

  /** In a parsed review whose hunks' hashes do not collide, the note of a grounded finding with an
      address, so of every accepted one with an address, is on a hunk that has its path and holds
      its line. */
  lemma NotesHoldTheirLines(files: seq<File>, hash: string -> string, a: Accepted)
    requires Parsed(files) && NoCollision(files, hash)
    requires Grounded(files, Hashing(hash), a) && a.address.Some?
    ensures var p := NotePlace(files, Hashing(hash), a);
            && p.Some? && At(files, p.value, a.path)
            && NoteAnchor(files, Hashing(hash), a) == HunkAnchor(a.path, HunkAt(files, p.value).id)
            && (a.line.Some? ==> LineIn(HunkAt(files, p.value), a.line.value.0, a.line.value.1))
  {
    hide Parsed, NoCollision, Hashing, LineIn, SameHunk;
    var p :| At(files, p, a.path) && AddressAt(files, Hashing(hash), p) == a.address.value &&
             (a.line.Some? ==> LineIn(HunkAt(files, p), a.line.value.0, a.line.value.1));
    var q := NotePlace(files, Hashing(hash), a);
    assert q.Some?;
    SharedAddressesAreCopies(files, hash, a.path, p, q.value);
    if a.line.Some? {
      SameHunkSameLines(HunkAt(files, p), HunkAt(files, q.value), a.line.value.0, a.line.value.1);
    }
  }
}
