/** A list of sessions in order of last use, oldest first, and what it means for a table of ticked
    entries to stand for such a list. */
module Recency {
  import opened Machine

  datatype Entry<F> = Entry(files: F, retainedBytes: usize, lastTick: u64)

  /** A session of the list, which has no ticks. */
  datatype Held<K, F> = Held(id: K, files: F, bytes: usize)

  ghost function Front<T>(s: seq<T>): seq<T>
    requires s != []
  {
    s[..|s| - 1]
  }

  ghost function Last<T>(s: seq<T>): T
    requires s != []
  {
    s[|s| - 1]
  }

  ghost function Total<K, F>(list: seq<Held<K, F>>): nat {
    if list == [] then 0 else Total(Front(list)) + Last(list).bytes
  }

  /** The list without the session `id`. */
  ghost function Without<K, F>(list: seq<Held<K, F>>, id: K): seq<Held<K, F>> {
    if list == [] then []
    else if Last(list).id == id then Front(list)
    else Without(Front(list), id) + [Last(list)]
  }

  /** The entries are the sessions of `list`, with ticks below `bound` that grow along it. */
  ghost predicate Lists<K, F>(entries: map<K, Entry<F>>, bound: nat, list: seq<Held<K, F>>)
    decreases |list|
  {
    if list == [] then entries == map[] else
      var h := Last(list);
      && h.id in entries
      && entries[h.id].files == h.files
      && entries[h.id].retainedBytes == h.bytes
      && entries[h.id].lastTick < bound
      && Lists(entries - {h.id}, entries[h.id].lastTick, Front(list))
  }

  lemma {:induction false} ListsCount<K, F>(entries: map<K, Entry<F>>, bound: nat, list: seq<Held<K, F>>)
    requires Lists(entries, bound, list)
    ensures |list| == |entries|
    decreases |list|
  {
    if list != [] {
      var id := Last(list).id;
      ListsCount(entries - {id}, entries[id].lastTick, Front(list));
      assert (entries - {id}).Keys == entries.Keys - {id};
    }
  }

  /** The ids of a list of sessions. */
  ghost function Ids<K, F>(list: seq<Held<K, F>>): set<K> {
    if list == [] then {} else Ids(Front(list)) + {Last(list).id}
  }

  lemma {:induction false} ListsIds<K, F>(entries: map<K, Entry<F>>, bound: nat, list: seq<Held<K, F>>)
    requires Lists(entries, bound, list)
    ensures entries.Keys == Ids(list)
    decreases |list|
  {
    if list != [] {
      var id := Last(list).id;
      ListsIds(entries - {id}, entries[id].lastTick, Front(list));
      assert entries.Keys == (entries - {id}).Keys + {id};
    }
  }

  /** Each place of the list has an entry of its own. */
  lemma {:induction false} ListsAt<K, F>(entries: map<K, Entry<F>>, bound: nat, list: seq<Held<K, F>>, i: nat)
    requires Lists(entries, bound, list) && i < |list|
    ensures list[i].id in entries && entries[list[i].id].lastTick < bound
    ensures entries[list[i].id].files == list[i].files && entries[list[i].id].retainedBytes == list[i].bytes
    ensures forall j :: i < j < |list| ==> list[i].id != list[j].id
    decreases |list|
  {
    if i < |list| - 1 {
      var id := Last(list).id;
      ListsAt(entries - {id}, entries[id].lastTick, Front(list), i);
      assert forall j :: 0 <= j < |list| - 1 ==> Front(list)[j] == list[j];
    }
  }

  lemma {:induction false} TicksBelow<K, F>(entries: map<K, Entry<F>>, bound: nat, list: seq<Held<K, F>>, id: K)
    requires Lists(entries, bound, list) && id in entries
    ensures entries[id].lastTick < bound
    decreases |list|
  {
    var last := Last(list).id;
    if id != last {
      TicksBelow(entries - {last}, entries[last].lastTick, Front(list), id);
    }
  }

  /** The ticks alone say what the order of last use is: a table stands for one list. */
  lemma {:induction false} ListIsUnique<K, F>(entries: map<K, Entry<F>>, boundA: nat, a: seq<Held<K, F>>,
                                              boundB: nat, b: seq<Held<K, F>>)
    requires Lists(entries, boundA, a) && Lists(entries, boundB, b)
    ensures a == b
    decreases |a|
  {
    ListsCount(entries, boundA, a);
    ListsCount(entries, boundB, b);
    if a != [] {
      var x, y := Last(a).id, Last(b).id;
      if x != y {
        TicksBelow(entries - {x}, entries[x].lastTick, Front(a), y);
        TicksBelow(entries - {y}, entries[y].lastTick, Front(b), x);
        assert false;
      }
      ListIsUnique(entries - {x}, entries[x].lastTick, Front(a), entries[x].lastTick, Front(b));
      assert a == Front(a) + [Last(a)] && b == Front(b) + [Last(b)];
    }
  }

  lemma ListsRaise<K, F>(entries: map<K, Entry<F>>, bound: nat, list: seq<Held<K, F>>, higher: nat)
    requires Lists(entries, bound, list) && bound <= higher
    ensures Lists(entries, higher, list)
  {}

  /** A new session, or one taken out and put back, is the most recently used. */
  lemma ListsInsert<K, F>(entries: map<K, Entry<F>>, list: seq<Held<K, F>>, id: K, e: Entry<F>)
    requires Lists(entries, e.lastTick, list) && id !in entries
    ensures Lists(entries[id := e], e.lastTick + 1, list + [Held(id, e.files, e.retainedBytes)])
    ensures Total(list + [Held(id, e.files, e.retainedBytes)]) == Total(list) + e.retainedBytes
  {
    assert Front(list + [Held(id, e.files, e.retainedBytes)]) == list;
    assert entries[id := e] - {id} == entries;
  }

  /** A session that leaves takes its bytes with it; the others keep their order. */
  lemma {:induction false} ListsRemove<K, F>(entries: map<K, Entry<F>>, bound: nat, list: seq<Held<K, F>>, id: K)
    requires Lists(entries, bound, list) && id in entries
    ensures Lists(entries - {id}, bound, Without(list, id))
    ensures Total(list) == entries[id].retainedBytes + Total(Without(list, id))
    ensures |Without(list, id)| == |list| - 1
    decreases |list|
  {
    var last := Last(list);
    if last.id == id {
      ListsRaise(entries - {id}, entries[id].lastTick, Front(list), bound);
    } else {
      ListsRemove(entries - {last.id}, entries[last.id].lastTick, Front(list), id);
      var rest := Without(list, id);
      assert Front(rest) == Without(Front(list), id);
      assert entries - {last.id} - {id} == entries - {id} - {last.id};
    }
  }

  /** The head of the list, and nothing else, has the smallest tick. */
  lemma {:induction false} HeadIsOldest<K, F>(entries: map<K, Entry<F>>, bound: nat, list: seq<Held<K, F>>, id: K)
    requires Lists(entries, bound, list) && id in entries
    ensures list != [] && list[0].id in entries
    ensures id != list[0].id ==> entries[list[0].id].lastTick < entries[id].lastTick
    decreases |list|
  {
    var last := Last(list).id;
    if |list| == 1 {
      assert Front(list) == [];
      assert id in entries - {last} || id == last;
    } else if id == last {
      ListsAt(entries - {last}, entries[last].lastTick, Front(list), 0);
    } else {
      HeadIsOldest(entries - {last}, entries[last].lastTick, Front(list), id);
    }
  }

  lemma {:induction false} WithoutHead<K, F>(entries: map<K, Entry<F>>, bound: nat, list: seq<Held<K, F>>)
    requires Lists(entries, bound, list) && list != []
    ensures Without(list, list[0].id) == list[1..]
    decreases |list|
  {
    if |list| > 1 {
      var last := Last(list).id;
      WithoutHead(entries - {last}, entries[last].lastTick, Front(list));
      ListsAt(entries, bound, list, 0);
    }
  }

  /** Ticks renumbered along the list keep the list. */
  lemma {:induction false} ListsRebase<K, F>(entries: map<K, Entry<F>>, bound: nat, list: seq<Held<K, F>>,
                                             rebased: map<K, Entry<F>>)
    requires Lists(entries, bound, list) && rebased.Keys == entries.Keys
    requires |list| < U64_SIZE
    requires forall i :: 0 <= i < |list| ==>
               list[i].id in entries && rebased[list[i].id] == entries[list[i].id].(lastTick := i + 1)
    ensures Lists(rebased, |list| + 1, list)
    decreases |list|
  {
    if list == [] {
      assert rebased.Keys == {};
    } else {
      var last := Last(list).id;
      forall i | 0 <= i < |list| - 1
        ensures Front(list)[i].id in entries - {last} &&
                (rebased - {last})[Front(list)[i].id] == (entries - {last})[Front(list)[i].id].(lastTick := i + 1)
      {
        ListsAt(entries, bound, list, i);
      }
      assert (rebased - {last}).Keys == (entries - {last}).Keys;
      ListsRebase(entries - {last}, entries[last].lastTick, Front(list), rebased - {last});
    }
  }

  // ----- making room -----

  ghost predicate Roomy<K, F>(list: seq<Held<K, F>>, bytes: nat, maxCount: nat, maxBytes: nat) {
    |list| < maxCount && Total(list) + bytes <= maxBytes
  }

  /** Dropping the oldest `evicted` sessions makes room for `bytes` more, and dropping fewer would not. */
  ghost predicate FewestEvicted<K, F>(list: seq<Held<K, F>>, evicted: nat, bytes: nat, maxCount: nat, maxBytes: nat) {
    && evicted <= |list|
    && Roomy(list[evicted..], bytes, maxCount, maxBytes)
    && forall k :: 0 <= k < evicted ==> !Roomy(list[k..], bytes, maxCount, maxBytes)
  }
}
