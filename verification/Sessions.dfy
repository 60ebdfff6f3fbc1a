/** The bounded session table. What it holds is a list in order of last use; ticks, ids and byte
    counts are how the program keeps that list in an unordered map. */
module Sessions {
  import opened Prelude
  import opened Machine
  import opened Recency
  import Decimal

  const MAX_SESSIONS: nat := 64
  const MAX_RETAINED_SESSION_BYTES: usize := 128 * 1024 * 1024

  datatype Opened = Opened(id: string) | TooLarge | NoFreeId

  /** What `session.open` answers: the id, the sessions evicted and the bytes now retained. */
  datatype OpenAnswer = OpenAnswer(id: string, evicted: nat, retained: usize) | OpenError(error: Opened)

  // ----- ids -----

  function Name(n: nat): string { "s" + Decimal.Print(n) }

  lemma NameInjective(m: nat, n: nat)
    requires Name(m) == Name(n)
    ensures m == n
  {
    assert Name(m)[1..] == Decimal.Print(m) && Name(n)[1..] == Decimal.Print(n);
    Decimal.ReadsBack(m);
    Decimal.ReadsBack(n);
  }

  function NextId(n: u64): u64 { if n == U64_MAX then 1 else n + 1 }

  /** The id number `k` candidates after `n`. */
  ghost function Candidate(n: u64, k: nat): u64 {
    if k == 0 then n else NextId(Candidate(n, k - 1))
  }

  lemma {:induction false} CandidateValue(n: u64, k: nat)
    requires n >= 1 && k < U64_MAX
    ensures Candidate(n, k) == if n + k <= U64_MAX then n + k else n + k - U64_MAX
  {
    if k > 0 { CandidateValue(n, k - 1); }
  }

  /** The first `k` candidates' ids. */
  ghost function Tried(n: u64, k: nat): set<string> {
    if k == 0 then {} else Tried(n, k - 1) + {Name(Candidate(n, k - 1))}
  }

  /** `id` is the first candidate from `n` on that is not `taken`, and `next` comes after it. */
  ghost predicate FirstFree(n: u64, taken: set<string>, id: string, next: u64) {
    exists k: nat ::
      id == Name(Candidate(n, k)) && id !in taken && Tried(n, k) <= taken && next == Candidate(n, k + 1)
  }

  lemma {:induction false} CandidateIsNew(n: u64, j: nat, k: nat)
    requires n >= 1 && j <= k <= MAX_SESSIONS
    ensures Name(Candidate(n, k)) !in Tried(n, j)
  {
    if j > 0 {
      CandidateIsNew(n, j - 1, k);
      CandidateValue(n, j - 1);
      CandidateValue(n, k);
      if Name(Candidate(n, k)) == Name(Candidate(n, j - 1)) {
        NameInjective(Candidate(n, k), Candidate(n, j - 1));
      }
    }
  }

  /** No two of the candidates a search can reach share an id, also across the wrap to 1. */
  lemma {:induction false} CandidatesDiffer(n: u64, k: nat)
    requires n >= 1 && k <= MAX_SESSIONS + 1
    ensures |Tried(n, k)| == k
  {
    if k > 0 {
      CandidatesDiffer(n, k - 1);
      CandidateIsNew(n, k - 1, k - 1);
    }
  }

  /** A set inside another is no larger. */
  lemma {:induction false} SubsetSize(a: set<string>, b: set<string>)
    requires a <= b
    ensures |a| <= |b|
  {
    if a != {} {
      var x :| x in a;
      SubsetSize(a - {x}, b - {x});
    }
  }

  class Table<F> {
    var entries: map<string, Entry<F>>
    var nextSession: u64
    var tick: u64
    var retainedBytes: usize
    const maxRetainedBytes: usize

    /** The sessions in order of last use. */
    ghost var recency: seq<Held<string, F>>
    /** Every id ever issued, and whether the id counter has wrapped. */
    ghost var issued: set<string>
    ghost var wrapped: bool

    ghost predicate Valid()
      reads this
    {
      && Lists(entries, tick + 1, recency)
      && |recency| <= MAX_SESSIONS
      && retainedBytes == Total(recency)
      && retainedBytes <= maxRetainedBytes
      && entries.Keys <= issued
      && CountsIds()
    }

    /** What holds of the id counter even when the rest of the table was left half updated. */
    ghost predicate CountsIds()
      reads this
    {
      && maxRetainedBytes < USIZE_MAX
      && nextSession >= 1
      && (!wrapped ==> forall id :: id in issued ==> IssuedBelow(id, nextSession))
    }

    static ghost predicate IssuedBelow(id: string, bound: nat) {
      exists n :: 1 <= n < bound && id == Name(n)
    }

    constructor ()
      ensures Valid() && recency == [] && nextSession == 1 && issued == {} && !wrapped
      ensures maxRetainedBytes == MAX_RETAINED_SESSION_BYTES
    {
      entries, nextSession, tick, retainedBytes := map[], 1, 0, 0;
      maxRetainedBytes := MAX_RETAINED_SESSION_BYTES;
      recency, issued, wrapped := [], {}, false;
    }

    /** Start again empty after a panic left the table in any state; no id is forgotten. */
    method Reset()
      requires CountsIds()
      modifies this`entries, this`retainedBytes, this`tick, this`recency
      ensures Valid() && recency == []
    {
      entries, retainedBytes, tick, recency := map[], 0, 0, [];
    }

    /** The ids by increasing tick, whatever order the map lists them in. */
    method SortedIds() returns (ordered: seq<string>)
      requires Valid()
      ensures |ordered| == |recency|
      ensures forall i :: 0 <= i < |recency| ==> ordered[i] == recency[i].id
    {
      ordered := [];
      var left := entries;
      assert recency[0..] == recency;
      while left != map[]
        invariant |ordered| <= |recency|
        invariant forall i :: 0 <= i < |ordered| ==> ordered[i] == recency[i].id
        invariant Lists(left, tick + 1, recency[|ordered|..])
        decreases |recency| - |ordered|
      {
        ghost var list := recency[|ordered|..];
        var id := Oldest(left, tick + 1, list);
        WithoutHead(left, tick + 1, list);
        ListsRemove(left, tick + 1, list, id);
        assert list[1..] == recency[|ordered| + 1..];
        ordered := ordered + [id];
        left := left - {id};
      }
    }

    /** An id with the smallest tick. */
    static method Oldest(table: map<string, Entry<F>>, ghost bound: nat, ghost list: seq<Held<string, F>>)
      returns (id: string)
      requires Lists(table, bound, list) && table != map[]
      ensures id in table && list != [] && id == list[0].id
    {
      ghost var head := list[0].id;
      ListsAt(table, bound, list, 0);
      forall other | other in table ensures table[head].lastTick <= table[other].lastTick {
        HeadIsOldest(table, bound, list, other);
      }
      id :| id in table && forall other :: other in table ==> table[id].lastTick <= table[other].lastTick;
      HeadIsOldest(table, bound, list, id);
    }

    method NextTick() returns (t: u64)
      requires Valid()
      modifies this`tick, this`entries
      ensures Valid() && recency == old(recency) && entries.Keys == old(entries.Keys)
      ensures t == tick && Lists(entries, t, recency)
    {
      if tick == U64_MAX {
        var ordered := SortedIds();
        Rebase(ordered);
        ListsCount(entries, |recency| + 1, recency);
        tick := |entries|;
      }
      ListsRaise(entries, tick + 1, recency, tick + 2);
      tick := tick + 1;
      t := tick;
    }

    method Rebase(ordered: seq<string>)
      requires Valid() && |ordered| == |recency|
      requires forall i :: 0 <= i < |recency| ==> ordered[i] == recency[i].id
      modifies this`entries
      ensures entries.Keys == old(entries.Keys)
      ensures Lists(entries, |recency| + 1, recency)
    {
      var index := 0;
      forall i | 0 <= i < |recency|
        ensures ordered[i] in entries
        ensures forall j :: i < j < |recency| ==> ordered[i] != ordered[j]
      {
        ListsAt(entries, tick + 1, recency, i);
      }
      while index < |ordered|
        invariant 0 <= index <= |ordered|
        invariant entries.Keys == old(entries.Keys)
        invariant forall i :: 0 <= i < index ==> entries[ordered[i]] == old(entries)[ordered[i]].(lastTick := i + 1)
        invariant forall i :: index <= i < |ordered| ==> entries[ordered[i]] == old(entries)[ordered[i]]
      {
        var id := ordered[index];
        entries := entries[id := entries[id].(lastTick := index + 1)];
        index := index + 1;
      }
      ListsRebase(old(entries), tick + 1, recency, entries);
    }

    method EvictLru() returns (evicted: bool)
      requires Valid()
      modifies this`entries, this`retainedBytes, this`recency
      ensures Valid()
      ensures evicted <==> old(recency) != []
      ensures recency == if evicted then old(recency)[1..] else old(recency)
    {
      ListsCount(entries, tick + 1, recency);
      if entries == map[] { return false; }
      var key := Oldest(entries, tick + 1, recency);
      WithoutHead(entries, tick + 1, recency);
      ListsRemove(entries, tick + 1, recency, key);
      retainedBytes := SaturatingSub(retainedBytes, entries[key].retainedBytes);
      entries := entries - {key};
      recency := recency[1..];
      evicted := true;
    }

    /** A session's files, when it exists; it becomes the most recently used. */
    method SnapshotFiles(id: string) returns (files: Option<F>)
      requires Valid()
      modifies this`tick, this`entries, this`recency
      ensures Valid() && entries.Keys == old(entries.Keys)
      ensures files.Some? <==> id in old(entries)
      ensures files.Some? ==> files.value == old(entries)[id].files
      ensures recency == if id in old(entries)
                         then Without(old(recency), id) +
                              [Held(id, old(entries)[id].files, old(entries)[id].retainedBytes)]
                         else old(recency)
    {
      ghost var before := entries;
      var t := NextTick();
      if id !in entries { return None; }
      ghost var list := recency;
      SameEntry(before, old(tick) + 1, entries, t, list, id);
      var e := entries[id].(lastTick := t);
      ListsRemove(entries, t, list, id);
      ListsInsert(entries - {id}, Without(list, id), id, e);
      assert (entries - {id})[id := e] == entries[id := e];
      entries := entries[id := e];
      recency := Without(list, id) + [Held(id, e.files, e.retainedBytes)];
      files := Some(e.files);
    }

    method CloseSession(id: string) returns (closed: bool)
      requires Valid()
      modifies this`entries, this`retainedBytes, this`recency
      ensures Valid()
      ensures closed <==> id in old(entries)
      ensures entries == old(entries) - {id}
      ensures recency == if closed then Without(old(recency), id) else old(recency)
    {
      if id !in entries { return false; }
      ListsRemove(entries, tick + 1, recency, id);
      retainedBytes := SaturatingSub(retainedBytes, entries[id].retainedBytes);
      entries := entries - {id};
      recency := Without(recency, id);
      closed := true;
    }

    /** Evict until both caps leave room: exactly as few of the oldest sessions as that takes. */
    method MakeRoom(bytes: usize) returns (ghost evicted: nat)
      requires Valid() && bytes <= maxRetainedBytes
      modifies this`entries, this`retainedBytes, this`recency
      ensures Valid()
      ensures FewestEvicted(old(recency), evicted, bytes, MAX_SESSIONS, maxRetainedBytes)
      ensures recency == old(recency)[evicted..]
    {
      evicted := 0;
      var passes := |entries| + 1;
      ListsCount(entries, tick + 1, recency);
      assert recency == old(recency)[0..];
      while passes > 0
        invariant Valid() && evicted <= |old(recency)|
        invariant recency == old(recency)[evicted..]
        invariant passes == |recency| + 1
        invariant forall k :: 0 <= k < evicted ==> !Roomy(old(recency)[k..], bytes, MAX_SESSIONS, maxRetainedBytes)
      {
        ListsCount(entries, tick + 1, recency);
        var over := |entries| >= MAX_SESSIONS || SaturatingAdd(retainedBytes, bytes) > maxRetainedBytes;
        if !over { break; }
        var more := EvictLru();
        if !more { break; }
        assert old(recency)[evicted..][1..] == old(recency)[evicted + 1..];
        evicted := evicted + 1;
        passes := passes - 1;
      }
    }

    static lemma NotIssued(issued: set<string>, n: u64)
      requires n >= 1 && forall id :: id in issued ==> IssuedBelow(id, n)
      ensures Name(n) !in issued
    {
      if Name(n) in issued {
        var m :| 1 <= m < n && Name(n) == Name(m);
        NameInjective(n, m);
        assert false;
      }
    }

    /** The first id, counting on from `nextSession` and wrapping to 1, that no session has. */
    method FreeId() returns (id: Option<string>)
      requires Valid() && |recency| < MAX_SESSIONS
      modifies this`nextSession, this`wrapped
      ensures Valid()
      ensures id.Some? && id.value !in entries
      ensures FirstFree(old(nextSession), entries.Keys, id.value, nextSession)
      ensures !old(wrapped) ==> id.value !in issued
      ensures !wrapped ==> IssuedBelow(id.value, nextSession)
      ensures !old(wrapped) ==> (wrapped <==> old(nextSession) == U64_MAX)
    {
      hide Lists, Total;
      ListsCount(entries, tick + 1, recency);
      if !wrapped { NotIssued(issued, nextSession); }
      var tries := 0;
      while tries <= MAX_SESSIONS
        invariant tries <= MAX_SESSIONS + 1
        invariant nextSession == Candidate(old(nextSession), tries) >= 1
        invariant Tried(old(nextSession), tries) <= entries.Keys
        invariant tries > 0 ==> old(wrapped)
        invariant wrapped == old(wrapped)
      {
        var candidate := "s" + Decimal.Print(nextSession);
        if nextSession == U64_MAX { wrapped := true; }
        nextSession := if nextSession == U64_MAX then 1 else nextSession + 1;
        if candidate !in entries {
          assert nextSession == Candidate(old(nextSession), tries + 1);
          return Some(candidate);
        }
        tries := tries + 1;
      }
      CandidatesDiffer(old(nextSession), tries);
      SubsetSize(Tried(old(nextSession), tries), entries.Keys);
      assert false;
      id := None;
    }

    method Insert(id: string, files: F, bytes: usize)
      requires Valid() && id !in entries && Roomy(recency, bytes, MAX_SESSIONS, maxRetainedBytes)
      requires !wrapped ==> IssuedBelow(id, nextSession)
      modifies this`tick, this`entries, this`retainedBytes, this`recency, this`issued
      ensures Valid()
      ensures recency == old(recency) + [Held(id, files, bytes)]
      ensures issued == old(issued) + {id}
    {
      var t := NextTick();
      var e := Entry(files, bytes, t);
      ListsInsert(entries, recency, id, e);
      retainedBytes := SaturatingAdd(retainedBytes, bytes);
      entries := entries[id := e];
      recency := recency + [Held(id, files, bytes)];
      issued := issued + {id};
    }

    method OpenSession(files: F, bytes: usize) returns (outcome: Opened, ghost evicted: nat)
      requires Valid()
      modifies this
      ensures Valid()
      ensures outcome.TooLarge? <==> bytes > maxRetainedBytes
      ensures !outcome.NoFreeId?
      ensures outcome.TooLarge? ==> evicted == 0 && unchanged(this)
      ensures outcome.Opened? ==>
        && FewestEvicted(old(recency), evicted, bytes, MAX_SESSIONS, maxRetainedBytes)
        && recency == old(recency)[evicted..] + [Held(outcome.id, files, bytes)]
        && issued == old(issued) + {outcome.id}
        && (!old(wrapped) ==> outcome.id !in old(issued))
        && FirstFree(old(nextSession), Ids(old(recency)[evicted..]), outcome.id, nextSession)
        && (!old(wrapped) ==> (wrapped <==> old(nextSession) == U64_MAX))
    {
      if bytes > maxRetainedBytes { return TooLarge, 0; }
      evicted := MakeRoom(bytes);
      ListsIds(entries, tick + 1, recency);
      var found := FreeId();
      if found.None? { return NoFreeId, evicted; }
      var id := found.value;
      Insert(id, files, bytes);
      outcome := Opened(id);
    }

    /** `session.open` under the table's lock: the count it reports is the sessions evicted. */
    method SessionOpen(files: F, bytes: usize) returns (answer: OpenAnswer, ghost evicted: nat)
      requires Valid()
      modifies this
      ensures Valid()
      ensures answer.OpenAnswer? <==> bytes <= maxRetainedBytes
      ensures answer.OpenAnswer? ==>
        && answer.evicted == evicted
        && FewestEvicted(old(recency), evicted, bytes, MAX_SESSIONS, maxRetainedBytes)
        && recency == old(recency)[evicted..] + [Held(answer.id, files, bytes)]
        && answer.retained == Total(recency) <= maxRetainedBytes
      ensures answer.OpenError? ==> unchanged(this)
    {
      ListsCount(entries, tick + 1, recency);
      var before := |entries|;
      var outcome;
      outcome, evicted := OpenSession(files, bytes);
      if !outcome.Opened? { return OpenError(outcome), evicted; }
      ListsCount(entries, tick + 1, recency);
      answer := OpenAnswer(outcome.id, before + 1 - |entries|, retainedBytes);
    }
  }

  /** Two tables of the same list hold the same sessions. */
  lemma {:induction false} SameEntry<K, F>(a: map<K, Entry<F>>, boundA: nat, b: map<K, Entry<F>>, boundB: nat,
                                           list: seq<Held<K, F>>, id: K)
    requires Lists(a, boundA, list) && Lists(b, boundB, list) && id in a
    ensures id in b && a[id].files == b[id].files && a[id].retainedBytes == b[id].retainedBytes
    decreases |list|
  {
    var last := Last(list).id;
    if id != last {
      SameEntry(a - {last}, a[last].lastTick, b - {last}, b[last].lastTick, Front(list), id);
    }
  }
}
