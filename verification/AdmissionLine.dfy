/** What the tickets stand for: a first-come, first-served line. Slot `i` belongs to the ticket `i`
    places after the one being served, modulo the size of a ticket; it holds the request waiting
    with that ticket, or nobody when that request gave up. */
module AdmissionLine {
  import opened Machine
  import opened AdmissionGate
  import TicketQueue

  datatype Slot = Left | Of(id: Id)

  /** The ticket handed out `i` tickets after `serving`. */
  function TicketAt(serving: u64, i: nat): u64 {
    if i == 0 then serving else WrappingSucc(TicketAt(serving, i - 1))
  }

  lemma {:induction false} TicketValue(serving: u64, i: nat)
    ensures TicketAt(serving, i) == (serving + i) % U64_SIZE
  {
    if i > 0 {
      TicketValue(serving, i - 1);
      WrapStep(serving + i - 1);
    }
  }

  lemma WrapStep(n: nat)
    ensures WrappingSucc(n % U64_SIZE) == (n + 1) % U64_SIZE
  {}

  lemma TicketsDiffer(serving: u64, i: nat, j: nat)
    requires i < j < i + U64_SIZE
    ensures TicketAt(serving, i) != TicketAt(serving, j)
  {
    TicketValue(serving, i);
    TicketValue(serving, j);
  }

  lemma {:induction false} TicketShifts(serving: u64, k: nat, i: nat)
    ensures TicketAt(TicketAt(serving, k), i) == TicketAt(serving, k + i)
  {
    if i > 0 {
      TicketShifts(serving, k, i - 1);
    }
  }

  /** `x` is handed out after `serving` and before the ticket `n` places further. */
  ghost predicate Between(serving: u64, x: u64, n: nat) {
    exists i :: 0 < i < n && x == TicketAt(serving, i)
  }

  /** The abandoned tickets a line stands for. */
  ghost function Marks(serving: u64, slots: seq<Slot>): set<u64> {
    set i | 0 <= i < |slots| && slots[i].Left? :: TicketAt(serving, i)
  }

  /** The requests of a line, in order. */
  ghost function Names(slots: seq<Slot>): seq<Id> {
    if slots == [] then []
    else if slots[0].Of? then [slots[0].id] + Names(slots[1..])
    else Names(slots[1..])
  }

  /** The line starts with a request, never with a place that was given up. */
  ghost function Trim(slots: seq<Slot>): seq<Slot> {
    if slots != [] && slots[0].Left? then Trim(slots[1..]) else slots
  }

  ghost predicate Placed(requests: map<Id, Phase>, serving: u64, slots: seq<Slot>) {
    forall i :: 0 <= i < |slots| && slots[i].Of? ==>
      && slots[i].id in requests
      && requests[slots[i].id].Waits()
      && requests[slots[i].id].ticket == TicketAt(serving, i)
  }

  /** The gate's tickets are exactly the line `slots`. */
  ghost predicate Lined(g: Gate, slots: seq<Slot>) {
    && |slots| <= U64_SIZE
    && g.queue.next == TicketAt(g.queue.serving, |slots|)
    && g.queue.abandoned == Marks(g.queue.serving, slots)
    && Placed(g.requests, g.queue.serving, slots)
    && (forall t :: t in g.requests && g.requests[t].Waits() ==> Of(t) in slots)
    && (forall t :: t in g.requests ==> t < g.arrived)
    && (slots != [] ==> slots[0].Of?)
  }

  lemma ShiftMarks(serving: u64, slots: seq<Slot>)
    requires 0 < |slots| <= U64_SIZE
    ensures Marks(WrappingSucc(serving), slots[1..]) == Marks(serving, slots) - {serving}
  {
    var next, rest := TicketAt(serving, 1), slots[1..];
    forall i | 0 <= i < |rest| ensures TicketAt(next, i) == TicketAt(serving, i + 1) != serving {
      TicketShifts(serving, 1, i);
      TicketsDiffer(serving, 0, i + 1);
    }
    forall x | x in Marks(serving, slots) - {serving} ensures x in Marks(next, rest) {
      var i :| 0 <= i < |slots| && slots[i].Left? && x == TicketAt(serving, i);
      assert rest[i - 1].Left? && x == TicketAt(next, i - 1);
    }
    forall x | x in Marks(next, rest) ensures x in Marks(serving, slots) {
      var i :| 0 <= i < |rest| && rest[i].Left? && x == TicketAt(next, i);
      assert slots[i + 1].Left?;
    }
  }

  lemma HeadUnmarked(serving: u64, slots: seq<Slot>)
    requires |slots| <= U64_SIZE && (slots == [] || slots[0].Of?)
    ensures serving !in Marks(serving, slots)
  {
    forall i | 0 < i < |slots| ensures TicketAt(serving, i) != serving {
      TicketsDiffer(serving, 0, i);
    }
  }

  lemma {:induction false} TrimDrops(slots: seq<Slot>)
    ensures |Trim(slots)| <= |slots| && Trim(slots) == slots[|slots| - |Trim(slots)|..]
    ensures Trim(slots) != [] ==> Trim(slots)[0].Of?
    ensures forall i :: 0 <= i < |slots| - |Trim(slots)| ==> slots[i].Left?
  {
    if slots != [] && slots[0].Left? {
      var rest := slots[1..];
      TrimDrops(rest);
      assert rest[|rest| - |Trim(rest)|..] == slots[|slots| - |Trim(rest)|..];
      assert forall i :: 0 < i < |slots| ==> slots[i] == rest[i - 1];
    }
  }

  /** Skipping abandoned tickets is trimming the line. */
  lemma {:induction false} SkipTrims(serving: u64, slots: seq<Slot>)
    requires |slots| < U64_SIZE
    ensures |Trim(slots)| <= |slots|
    ensures var reached := TicketAt(serving, |slots| - |Trim(slots)|);
            TicketQueue.Skip(serving, Marks(serving, slots)) == (reached, Marks(reached, Trim(slots)))
    decreases |slots|
  {
    TrimDrops(slots);
    if slots != [] && slots[0].Left? {
      var rest := slots[1..];
      SkipTrims(WrappingSucc(serving), rest);
      ShiftMarks(serving, slots);
      assert TicketAt(serving, 0) in Marks(serving, slots);
      TicketShifts(serving, 1, |rest| - |Trim(rest)|);
      assert TicketAt(serving, 1) == WrappingSucc(serving);
    } else {
      HeadUnmarked(serving, slots);
    }
  }

  /** Ids that are not in `gone`, in order. */
  ghost function Kept(ids: seq<Id>, gone: set<Id>): seq<Id> {
    if ids == [] then []
    else if ids[0] in gone then Kept(ids[1..], gone)
    else [ids[0]] + Kept(ids[1..], gone)
  }

  lemma {:induction false} NamesTrim(slots: seq<Slot>)
    ensures Names(Trim(slots)) == Names(slots)
  {
    if slots != [] && slots[0].Left? {
      NamesTrim(slots[1..]);
    }
  }

  lemma {:induction false} NamesAppend(slots: seq<Slot>, t: Id)
    ensures Names(slots + [Of(t)]) == Names(slots) + [t]
  {
    if slots == [] {
      assert Names([Of(t)]) == [t] + Names([]);
    } else {
      NamesAppend(slots[1..], t);
      assert (slots + [Of(t)])[1..] == slots[1..] + [Of(t)];
    }
  }

  lemma {:induction false} KeptAll(ids: seq<Id>, gone: set<Id>)
    requires forall t :: t in ids ==> t !in gone
    ensures Kept(ids, gone) == ids
  {
    if ids != [] {
      KeptAll(ids[1..], gone);
    }
  }

  lemma {:induction false} NamesIn(slots: seq<Slot>, t: Id)
    ensures t in Names(slots) <==> Of(t) in slots
  {
    if slots != [] {
      NamesIn(slots[1..], t);
    }
  }

  /** A place given up in the middle of the line loses that name and no other. */
  lemma {:induction false} NamesLeave(slots: seq<Slot>, i: nat)
    requires i < |slots| && slots[i].Of?
    requires forall j :: 0 <= j < |slots| && j != i ==> slots[j] != slots[i]
    ensures Names(slots[i := Left]) == Kept(Names(slots), {slots[i].id})
  {
    var t := slots[i].id;
    var rest := slots[1..];
    if i == 0 {
      assert slots[0 := Left][1..] == rest;
      NamesIn(rest, t);
      KeptAll(Names(rest), {t});
    } else {
      assert slots[i := Left][1..] == rest[i - 1 := Left];
      NamesLeave(rest, i - 1);
      var names := Names(slots);
      if slots[0].Of? {
        assert names == [slots[0].id] + Names(rest);
        assert names[1..] == Names(rest);
        assert Kept(names, {t}) == [slots[0].id] + Kept(Names(rest), {t});
      } else {
        assert names == Names(rest);
      }
    }
  }

  /** Each waiting request stands in one place only. */
  lemma PlacesDiffer(g: Gate, slots: seq<Slot>, i: nat, j: nat)
    requires Lined(g, slots)
    requires i < j < |slots| && slots[i].Of?
    ensures slots[i] != slots[j]
  {
    TicketsDiffer(g.queue.serving, i, j);
  }

  /** The turn moves past the head and the places given up behind it, `k` tickets in all. */
  lemma AdvanceMoves(q: TicketQueue.View, slots: seq<Slot>) returns (k: nat)
    requires 0 < |slots| <= U64_SIZE && slots[0].Of? && q.abandoned == Marks(q.serving, slots)
    ensures 0 < k <= |slots| && Trim(slots[1..]) == slots[k..]
    ensures forall i :: 0 < i < k ==> slots[i].Left?
    ensures TicketQueue.Advance(q).serving == TicketAt(q.serving, k)
    ensures TicketQueue.Advance(q).abandoned == Marks(TicketAt(q.serving, k), slots[k..])
  {
    var next, rest := WrappingSucc(q.serving), slots[1..];
    TrimDrops(rest);
    k := 1 + |rest| - |Trim(rest)|;
    assert Trim(rest) == slots[k..];
    assert TicketQueue.Skip(next, q.abandoned) == (TicketAt(next, k - 1), Marks(TicketAt(next, k - 1), Trim(rest))) by {
      SkipTrims(next, rest);
      ShiftMarks(q.serving, slots);
      HeadUnmarked(q.serving, slots);
      assert q.abandoned == Marks(next, rest);
    }
    assert TicketAt(q.serving, 1) == next;
    TicketShifts(q.serving, 1, k - 1);
  }

  /** Serving the next ticket takes the head off the line, and every place given up behind it. */
  lemma ServeHead(g: Gate, slots: seq<Slot>, p: Phase)
    requires Lined(g, slots) && slots != [] && !p.Waits()
    ensures var served := g.(queue := TicketQueue.Advance(g.queue), requests := g.requests[slots[0].id := p]);
            Lined(served, Trim(slots[1..]))
  {
    var k := AdvanceMoves(g.queue, slots);
    var served := g.(queue := TicketQueue.Advance(g.queue), requests := g.requests[slots[0].id := p]);
    assert served.queue.next == TicketAt(served.queue.serving, |slots[k..]|) by {
      TicketShifts(g.queue.serving, k, |slots| - k);
    }
    assert slots[k..] != [] ==> slots[k..][0].Of? by {
      TrimDrops(slots[1..]);
    }
    HeadLeaves(g, slots, k, p);
    assert forall t :: t in served.requests ==> t < g.arrived;
  }

  lemma ServeNames(slots: seq<Slot>)
    requires slots != [] && slots[0].Of?
    ensures Names(slots) == [slots[0].id] + Names(Trim(slots[1..]))
  {
    NamesTrim(slots[1..]);
  }

  lemma HeadLeaves(g: Gate, slots: seq<Slot>, k: nat, p: Phase)
    requires Lined(g, slots) && 0 < k <= |slots| && !p.Waits()
    requires forall i :: 0 < i < k ==> slots[i].Left?
    ensures var requests := g.requests[slots[0].id := p];
            && Placed(requests, TicketAt(g.queue.serving, k), slots[k..])
            && (forall t :: t in requests && requests[t].Waits() ==> Of(t) in slots[k..])
  {
    forall j | 0 < j < |slots| ensures slots[0] != slots[j] {
      PlacesDiffer(g, slots, 0, j);
    }
    forall i | 0 <= i < |slots| - k
      ensures TicketAt(TicketAt(g.queue.serving, k), i) == TicketAt(g.queue.serving, k + i)
    {
      TicketShifts(g.queue.serving, k, i);
    }
    var requests := g.requests[slots[0].id := p];
    forall t | t in requests && requests[t].Waits() ensures Of(t) in slots[k..] {
      var i :| 0 <= i < |slots| && slots[i] == Of(t);
      assert slots[k..][i - k] == Of(t);
    }
  }

  /** Giving a place up behind the head marks the place and moves nobody. */
  lemma LeavePlace(g: Gate, slots: seq<Slot>, i: nat, p: Phase)
    requires Lined(g, slots) && 0 < i < |slots| && slots[i].Of? && !p.Waits()
    ensures var ticket := TicketAt(g.queue.serving, i);
            var q := g.queue.(abandoned := g.queue.abandoned + {ticket});
            Lined(g.(queue := q, requests := g.requests[slots[i].id := p]), slots[i := Left])
    ensures Names(slots[i := Left]) == Kept(Names(slots), {slots[i].id})
  {
    forall j | 0 <= j < |slots| && j != i ensures slots[j] != slots[i] {
      if j < i { if slots[j].Of? { PlacesDiffer(g, slots, j, i); } } else { PlacesDiffer(g, slots, i, j); }
    }
    NamesLeave(slots, i);
    LeftMark(g.queue.serving, slots, i);
    LeftPlaced(g, slots, i, p);
  }

  lemma LeftMark(serving: u64, slots: seq<Slot>, i: nat)
    requires i < |slots|
    ensures Marks(serving, slots[i := Left]) == Marks(serving, slots) + {TicketAt(serving, i)}
  {
    hide TicketAt;
    var left := slots[i := Left];
    assert left[i].Left?;
    forall x | x in Marks(serving, slots) ensures x in Marks(serving, left) {
      var j :| 0 <= j < |slots| && slots[j].Left? && x == TicketAt(serving, j);
      assert left[j].Left?;
    }
  }

  lemma LeftPlaced(g: Gate, slots: seq<Slot>, i: nat, p: Phase)
    requires Lined(g, slots) && i < |slots| && slots[i].Of? && !p.Waits()
    requires forall j :: 0 <= j < |slots| && j != i ==> slots[j] != slots[i]
    ensures var requests, left := g.requests[slots[i].id := p], slots[i := Left];
            && Placed(requests, g.queue.serving, left)
            && (forall t :: t in requests && requests[t].Waits() ==> Of(t) in left)
  {
    var requests, left := g.requests[slots[i].id := p], slots[i := Left];
    forall t | t in requests && requests[t].Waits() ensures Of(t) in left {
      var j :| 0 <= j < |slots| && slots[j] == Of(t);
      assert left[j] == Of(t);
    }
  }

  /** A new ticket is the end of the line. */
  lemma JoinLine(g: Gate, slots: seq<Slot>, weight: usize)
    requires Lined(g, slots) && |slots| < U64_SIZE
    ensures Lined(Ticketed(g, weight), slots + [Of(g.arrived)])
  {
    var joined := slots + [Of(g.arrived)];
    assert Marks(g.queue.serving, joined) == Marks(g.queue.serving, slots) by {
      LastMark(g.queue.serving, joined);
      assert joined[..|slots|] == slots;
    }
    JoinPlaced(g, slots, weight);
  }

  lemma JoinPlaced(g: Gate, slots: seq<Slot>, weight: usize)
    requires Lined(g, slots)
    ensures var requests, joined := Ticketed(g, weight).requests, slots + [Of(g.arrived)];
            && Placed(requests, g.queue.serving, joined)
            && (forall t :: t in requests && requests[t].Waits() ==> Of(t) in joined)
  {
    var requests, joined := Ticketed(g, weight).requests, slots + [Of(g.arrived)];
    forall t | t in requests && requests[t].Waits() ensures Of(t) in joined {
      if t == g.arrived {
        assert joined[|slots|] == Of(t);
      } else {
        assert Of(t) in slots;
      }
    }
  }

  lemma LastMark(serving: u64, slots: seq<Slot>)
    requires 0 < |slots| <= U64_SIZE
    ensures var n := |slots| - 1;
            && TicketAt(serving, n) !in Marks(serving, slots[..n])
            && Marks(serving, slots) ==
               Marks(serving, slots[..n]) + if slots[n].Left? then {TicketAt(serving, n)} else {}
  {
    var n := |slots| - 1;
    forall i | 0 <= i < n ensures TicketAt(serving, i) != TicketAt(serving, n) {
      TicketsDiffer(serving, i, n);
    }
    forall x | x in Marks(serving, slots[..n]) ensures x in Marks(serving, slots) {
      var i :| 0 <= i < n && slots[..n][i].Left? && x == TicketAt(serving, i);
      assert slots[i].Left?;
    }
    forall x | x in Marks(serving, slots) && x != TicketAt(serving, n) ensures x in Marks(serving, slots[..n]) {
      var i :| 0 <= i < |slots| && slots[i].Left? && x == TicketAt(serving, i);
      assert slots[..n][i].Left?;
    }
  }

  ghost function Members(slots: seq<Slot>): set<Id> {
    set i | 0 <= i < |slots| && slots[i].Of? :: slots[i].id
  }

  lemma {:induction false} CountSlots(serving: u64, slots: seq<Slot>)
    requires |slots| <= U64_SIZE
    requires forall i, j :: 0 <= i < j < |slots| && slots[i].Of? ==> slots[i] != slots[j]
    ensures |Members(slots)| + |Marks(serving, slots)| == |slots|
    decreases |slots|
  {
    if slots != [] {
      var n := |slots| - 1;
      var front := slots[..n];
      CountSlots(serving, front);
      LastMark(serving, slots);
      LastMember(slots);
    }
  }

  lemma LastMember(slots: seq<Slot>)
    requires slots != []
    ensures var n := |slots| - 1;
            Members(slots) == Members(slots[..n]) + if slots[n].Of? then {slots[n].id} else {}
  {
    var n := |slots| - 1;
    var front := slots[..n];
    forall t | t in Members(slots) ensures t in Members(front) || slots[n] == Of(t) {
      var i :| 0 <= i < |slots| && slots[i].Of? && slots[i].id == t;
      if i < n { assert front[i].Of? && front[i].id == t; }
    }
    forall t | t in Members(front) ensures t in Members(slots) {
      var i :| 0 <= i < |front| && front[i].Of? && front[i].id == t;
      assert slots[i].Of? && slots[i].id == t;
    }
  }

  /** The tickets outstanding are those of the waiting requests and the abandoned ones. */
  lemma Outstanding(g: Gate, slots: seq<Slot>)
    requires Lined(g, slots)
    ensures Waiting(g) == Members(slots)
    ensures |Waiting(g)| + |g.queue.abandoned| == |slots|
  {
    forall i, j | 0 <= i < j < |slots| && slots[i].Of? ensures slots[i] != slots[j] {
      PlacesDiffer(g, slots, i, j);
    }
    CountSlots(g.queue.serving, slots);
    forall t | t in Waiting(g) ensures t in Members(slots) {
      var i :| 0 <= i < |slots| && slots[i] == Of(t);
    }
  }
}
