/** The admission protocol over whole runs: what holds in every reachable state, the order of
    admission, and that the gate drains. */
module AdmissionRuns {
  import opened Machine
  import opened Prelude
  import opened Sums
  import opened AdmissionGate
  import opened AdmissionLine
  import opened AdmissionSafety
  import TicketQueue

  ghost predicate Invariant(g: Gate) {
    (exists slots :: Lined(g, slots)) && Accounted(g) && NoLostWakeup(g)
  }

  lemma {:induction false} InvariantAfter(g: Gate, actions: seq<Action>)
    requires Invariant(g) && Possible(g, actions)
    ensures Invariant(After(g, actions)) && After(g, actions).budget == g.budget
    decreases |actions|
  {
    hide Lined, Accounted, NoLostWakeup, Step;
    if actions != [] {
      var slots: seq<Slot> :| Lined(g, slots);
      IdsBelow(g, slots);
      var slots' := StepLined(g, slots, actions[0]);
      StepBudget(g, actions[0]);
      StepAccounted(g, actions[0]);
      StepKeepsWakeups(g, actions[0]);
      InvariantAfter(Step(g, actions[0]), actions[1..]);
    }
  }

  lemma IdsBelow(g: Gate, slots: seq<Slot>)
    requires Lined(g, slots)
    ensures forall t :: t in g.requests ==> t < g.arrived
  {}

  lemma StepBudget(g: Gate, a: Action)
    requires Enabled(g, a)
    ensures Step(g, a).budget == g.budget
  {}

  lemma InvariantInitially(budget: usize)
    ensures Invariant(Init(budget)) && Lined(Init(budget), [])
  {
    assert Marks(0, []) == {};
    assert Lined(Init(budget), []);
    assert Weights(map[]) == map[];
  }

  /** In every interleaving, a request asleep although its turn has come and it fits has a
      notification still to be sent. */
  lemma NoWakeupIsLost(budget: usize, actions: seq<Action>, t: Id)
    requires Possible(Init(budget), actions)
    requires var g := After(Init(budget), actions);
             t in g.requests && g.requests[t].Sleeping? && MayStart(g, g.requests[t])
    ensures exists u :: u in After(Init(budget), actions).requests &&
                        After(Init(budget), actions).requests[u].WillNotify()
  {
    InvariantInitially(budget);
    InvariantAfter(Init(budget), actions);
  }

  /** In every reachable state the counters are the weights of the phases that hold a permit, and
      either these are no more than the budget together or a single one, heavier than the budget, is
      alone. */
  lemma CountersAreTheWeights(budget: usize, actions: seq<Action>)
    requires budget < USIZE_MAX && Possible(Init(budget), actions)
    ensures var g := After(Init(budget), actions);
            var weights := Weights(g.requests);
            && g.queue.inFlight == Sum(weights)
            && g.queue.running == |weights|
            && (Sum(weights) <= budget ||
                exists t :: t in weights && weights == map[t := weights[t]] && weights[t] > budget)
  {
    InvariantInitially(budget);
    InvariantAfter(Init(budget), actions);
    var weights := Weights(After(Init(budget), actions).requests);
    if Sum(weights) > budget {
      var t :| t in weights;
      SumPick(weights, t);
      assert |weights.Keys - {t}| == 0;
      assert weights - {t} == map[];
      assert weights == map[t := weights[t]];
    }
  }

  /** With a budget of the machine's largest number, two requests of that weight run together and
      the counter stands at the weight of one: dropping one permit leaves the other unaccounted. */
  lemma SaturationLosesBytes()
    ensures var w := USIZE_MAX;
            var actions := [Arrive(w, true), Arrive(w, true), Notify(0), Release(0)];
            && Possible(Init(USIZE_MAX), actions)
            && After(Init(USIZE_MAX), actions).queue.running == 1
            && After(Init(USIZE_MAX), actions).queue.inFlight == 0
            && Weights(After(Init(USIZE_MAX), actions).requests) == map[1 := w]
  {
    hide Weights;
    var w := USIZE_MAX;
    var a0, a1, a2, a3 := Arrive(w, true), Arrive(w, true), Notify(0), Release(0);
    var g0 := Init(USIZE_MAX);
    assert Waiting(g0) == {};
    var g1 := Step(g0, a0);
    assert g1.requests == map[0 := Admitted(w)];
    assert Waiting(g1) == {};
    var g2 := Step(g1, a1);
    assert g2.requests == map[0 := Admitted(w), 1 := Admitted(w)];
    var g3 := Step(g2, a2);
    assert g3.requests == map[0 := Running(w), 1 := Admitted(w)];
    var g4 := Step(g3, a3);
    assert g4.requests == map[0 := Returned, 1 := Admitted(w)];
    OnePermit(g4, w);
    RunNone(g4);
    RunOne(g3, a3, []);
    RunOne(g2, a2, [a3]);
    RunOne(g1, a1, [a2, a3]);
    RunOne(g0, a0, [a1, a2, a3]);
  }

  lemma OnePermit(g: Gate, w: usize)
    requires g.requests == map[0 := Returned, 1 := Admitted(w)]
    ensures Weights(g.requests) == map[1 := w]
  {}

  lemma RunNone(g: Gate)
    ensures Possible(g, []) && After(g, []) == g
  {}

  lemma RunOne(g: Gate, a: Action, rest: seq<Action>)
    requires Enabled(g, a) && Possible(Step(g, a), rest)
    ensures Possible(g, [a] + rest) && After(g, [a] + rest) == After(Step(g, a), rest)
  {
    assert ([a] + rest)[1..] == rest;
  }

  // ----- first come, first served -----

  ghost function Admissions(g: Gate, actions: seq<Action>): seq<Id>
    requires Possible(g, actions)
    decreases |actions|
  {
    if actions == [] then []
    else AdmittedBy(g, actions[0]) + Admissions(Step(g, actions[0]), actions[1..])
  }

  ghost function Refusals(g: Gate, actions: seq<Action>): set<Id>
    requires Possible(g, actions)
    decreases |actions|
  {
    if actions == [] then {}
    else RefusedBy(g, actions[0]) + Refusals(Step(g, actions[0]), actions[1..])
  }

  /** The ids from `lo` up to `hi`: the requests in the order they arrived. */
  ghost function Arrivals(lo: nat, hi: nat): seq<Id>
    decreases hi - lo
  {
    if lo >= hi then [] else [lo] + Arrivals(lo + 1, hi)
  }

  lemma {:induction false} KeptConcat(a: seq<Id>, b: seq<Id>, gone: set<Id>)
    ensures Kept(a + b, gone) == Kept(a, gone) + Kept(b, gone)
  {
    if a == [] {
      assert a + b == b;
    } else {
      KeptConcat(a[1..], b, gone);
      assert (a + b)[0] == a[0] && (a + b)[1..] == a[1..] + b;
      if a[0] !in gone {
        Regroup([a[0]], Kept(a[1..], gone), Kept(b, gone));
      }
    }
  }

  lemma {:induction false} KeptTwice(a: seq<Id>, x: set<Id>, y: set<Id>)
    ensures Kept(Kept(a, x), y) == Kept(a, x + y)
  {
    if a != [] {
      KeptTwice(a[1..], x, y);
      if a[0] !in x {
        assert Kept(a, x) == [a[0]] + Kept(a[1..], x);
        assert Kept(a, x)[1..] == Kept(a[1..], x);
      }
    }
  }

  lemma {:induction false} ArrivalsIn(lo: nat, hi: nat, t: Id)
    ensures t in Arrivals(lo, hi) <==> lo <= t < hi
    decreases hi - lo
  {
    if lo < hi {
      ArrivalsIn(lo + 1, hi, t);
    }
  }

  /** Only a request that waits, or one still to arrive, can be refused. */
  lemma {:induction false} RefusedWereWaiting(g: Gate, actions: seq<Action>, t: Id)
    requires Possible(g, actions) && t < g.arrived && (t in g.requests ==> !g.requests[t].Waits())
    ensures t !in Refusals(g, actions)
    decreases |actions|
  {
    if actions != [] {
      RefusedWereWaiting(Step(g, actions[0]), actions[1..], t);
    }
  }

  lemma {:induction false} OrderFrom(g: Gate, slots: seq<Slot>, actions: seq<Action>) returns (slots': seq<Slot>)
    requires Lined(g, slots) && Possible(g, actions)
    ensures g.arrived <= After(g, actions).arrived
    ensures Lined(After(g, actions), slots')
    ensures Kept(Names(slots) + Arrivals(g.arrived, After(g, actions).arrived), Refusals(g, actions)) ==
            Admissions(g, actions) + Names(slots')
    decreases |actions|
  {
    hide Lined, AdmittedBy, RefusedBy, Joining, Names, Kept, Step, Arrivals, Admissions, Refusals;
    if actions == [] {
      slots' := slots;
      NoOrder(g, Names(slots));
    } else {
      IdsBelow(g, slots);
      StepArrived(g, actions[0]);
      var slots1 := StepLined(g, slots, actions[0]);
      slots' := OrderFrom(Step(g, actions[0]), slots1, actions[1..]);
      OrderHead(g, actions, Names(slots), Names(slots1), Names(slots'));
    }
  }

  lemma StepArrived(g: Gate, a: Action)
    requires Enabled(g, a)
    ensures g.arrived <= Step(g, a).arrived
  {}

  lemma NoOrder(g: Gate, names: seq<Id>)
    ensures Kept(names + Arrivals(g.arrived, g.arrived), Refusals(g, [])) == Admissions(g, []) + names
  {
    assert names + Arrivals(g.arrived, g.arrived) == names == [] + names;
    KeptAll(names, {});
  }

  lemma OrderHead(g: Gate, actions: seq<Action>, names: seq<Id>, names1: seq<Id>, names': seq<Id>)
    requires actions != [] && Possible(g, actions)
    requires forall t :: t in g.requests ==> t < g.arrived
    requires var g1, rest, end := Step(g, actions[0]), actions[1..], After(g, actions).arrived;
             && g1.arrived <= end
             && Kept(names + Joining(g, actions[0]), RefusedBy(g, actions[0])) == AdmittedBy(g, actions[0]) + names1
             && Kept(names1 + Arrivals(g1.arrived, end), Refusals(g1, rest)) == Admissions(g1, rest) + names'
    ensures Kept(names + Arrivals(g.arrived, After(g, actions).arrived), Refusals(g, actions)) ==
            Admissions(g, actions) + names'
  {
    hide Kept, AdmittedBy, RefusedBy, Joining;
    var a, g1, rest, end := actions[0], Step(g, actions[0]), actions[1..], After(g, actions).arrived;
    var later := Arrivals(g1.arrived, end);
    forall t | t in AdmittedBy(g, a) ensures t !in Refusals(g1, rest) {
      AdmittedStays(g, a, t);
      RefusedWereWaiting(g1, rest, t);
    }
    forall t | t in later ensures t !in RefusedBy(g, a) {
      ArrivalsIn(g1.arrived, end, t);
      RefusedArrived(g, a);
    }
    OrderStep(names + Joining(g, a), later, RefusedBy(g, a), Refusals(g1, rest), AdmittedBy(g, a), names1);
    JoinArrivals(g, a, names, end);
    Regroup(AdmittedBy(g, a), Admissions(g1, rest), names');
  }

  lemma AdmittedStays(g: Gate, a: Action, t: Id)
    requires Enabled(g, a) && t in AdmittedBy(g, a) && forall u :: u in g.requests ==> u < g.arrived
    ensures t < Step(g, a).arrived && (t in Step(g, a).requests ==> !Step(g, a).requests[t].Waits())
  {}

  lemma RefusedArrived(g: Gate, a: Action)
    requires Enabled(g, a) && forall u :: u in g.requests ==> u < g.arrived
    ensures forall t :: t in RefusedBy(g, a) ==> t < Step(g, a).arrived
  {}

  lemma JoinArrivals(g: Gate, a: Action, names: seq<Id>, end: nat)
    requires Enabled(g, a) && Step(g, a).arrived <= end
    ensures names + Joining(g, a) + Arrivals(Step(g, a).arrived, end) == names + Arrivals(g.arrived, end)
  {
    if a.Arrive? {
      assert Arrivals(g.arrived, end) == [g.arrived] + Arrivals(g.arrived + 1, end);
    }
  }

  lemma OrderStep(start: seq<Id>, later: seq<Id>, refused: set<Id>, gone: set<Id>, admitted: seq<Id>, names1: seq<Id>)
    requires Kept(start, refused) == admitted + names1
    requires forall t :: t in admitted ==> t !in gone
    requires forall t :: t in later ==> t !in refused
    ensures Kept(start + later, refused + gone) == admitted + Kept(names1 + later, gone)
  {
    KeptTwice(start + later, refused, gone);
    KeptConcat(start, later, refused);
    KeptAll(later, refused);
    KeptConcat(admitted, names1 + later, gone);
    KeptAll(admitted, gone);
    Regroup(admitted, names1, later);
  }

  /** Over every run, the requests not refused are, in arrival order, exactly those admitted, in
      the order of their admission, followed by those still waiting. */
  lemma FirstComeFirstServed(budget: usize, actions: seq<Action>) returns (waiting: seq<Id>)
    requires Possible(Init(budget), actions)
    ensures var g := After(Init(budget), actions);
            && Kept(Arrivals(0, g.arrived), Refusals(Init(budget), actions)) ==
               Admissions(Init(budget), actions) + waiting
            && (forall t :: t in waiting <==> t in Waiting(g))
  {
    InvariantInitially(budget);
    var slots := OrderFrom(Init(budget), [], actions);
    var g := After(Init(budget), actions);
    waiting := Names(slots);
    assert Names([]) + Arrivals(0, g.arrived) == Arrivals(0, g.arrived);
    Outstanding(g, slots);
    forall t ensures t in waiting <==> t in Waiting(g) {
      NamesIn(slots, t);
      if t in Waiting(g) { var i :| 0 <= i < |slots| && slots[i] == Of(t); }
    }
  }

  lemma {:induction false} KeptIsSorted(lo: nat, hi: nat, gone: set<Id>)
    ensures var kept := Kept(Arrivals(lo, hi), gone);
            && (forall t :: t in kept <==> lo <= t < hi && t !in gone)
            && Increasing(kept)
    decreases hi - lo
  {
    if lo < hi {
      KeptIsSorted(lo + 1, hi, gone);
      assert Arrivals(lo, hi)[1..] == Arrivals(lo + 1, hi);
      var kept, rest := Kept(Arrivals(lo, hi), gone), Kept(Arrivals(lo + 1, hi), gone);
      if lo !in gone {
        assert kept == [lo] + rest;
        forall j | 0 < j < |kept| ensures lo < kept[j] { assert kept[j] in rest; }
      }
    }
  }

  /** Requests are admitted in the order of their arrival. */
  lemma AdmittedInOrder(budget: usize, actions: seq<Action>, i: nat, j: nat)
    requires Possible(Init(budget), actions)
    requires i < j < |Admissions(Init(budget), actions)|
    ensures Admissions(Init(budget), actions)[i] < Admissions(Init(budget), actions)[j]
  {
    hide Possible, After, Kept;
    var waiting := FirstComeFirstServed(budget, actions);
    KeptIsSorted(0, After(Init(budget), actions).arrived, Refusals(Init(budget), actions));
    PartsIncrease(Admissions(Init(budget), actions), waiting);
  }

  predicate Increasing(ids: seq<Id>) { forall i, j :: 0 <= i < j < |ids| ==> ids[i] < ids[j] }

  lemma LineInOrder(budget: usize, actions: seq<Action>) returns (slots: seq<Slot>)
    requires Possible(Init(budget), actions)
    ensures Lined(After(Init(budget), actions), slots) && Increasing(Names(slots))
  {
    hide Possible, After, Kept, Lined, Names, Arrivals;
    InvariantInitially(budget);
    slots := OrderFrom(Init(budget), [], actions);
    var n, admitted := After(Init(budget), actions).arrived, Admissions(Init(budget), actions);
    NoNames();
    assert [] + Arrivals(0, n) == Arrivals(0, n);
    KeptIsSorted(0, n, Refusals(Init(budget), actions));
    PartsIncrease(admitted, Names(slots));
  }

  lemma NoNames()
    ensures Names([]) == []
  {}

  lemma PartsIncrease(front: seq<Id>, back: seq<Id>)
    requires Increasing(front + back)
    ensures Increasing(front) && Increasing(back)
  {
    assert forall i :: 0 <= i < |front| ==> front[i] == (front + back)[i];
    assert forall i :: 0 <= i < |back| ==> back[i] == (front + back)[|front| + i];
  }

  /** The turn is the earliest waiting request's. */
  lemma TurnIsTheEarliest(g: Gate, slots: seq<Slot>, t: Id)
    requires Lined(g, slots) && t in Waiting(g) && Increasing(Names(slots))
    ensures g.queue.serving == g.requests[t].ticket <==> forall u :: u in Waiting(g) ==> t <= u
  {
    var i :| 0 <= i < |slots| && slots[i] == Of(t);
    var head := slots[0].id;
    assert head in Waiting(g);
    assert Names(slots)[0] == head;
    forall u | u in Waiting(g) ensures head <= u {
      NamesIn(slots, u);
      assert Of(u) in slots;
      var k :| 0 <= k < |Names(slots)| && Names(slots)[k] == u;
    }
    if i > 0 {
      TicketsDiffer(g.queue.serving, 0, i);
      PlacesDiffer(g, slots, 0, i);
      assert head != t;
    }
  }

  /** The weight of the request a step checks. */
  ghost function SubjectWeight(g: Gate, a: Action): usize
    requires Checks(a) && Enabled(g, a)
  {
    if a.Arrive? then a.weight else g.requests[a.id].weight
  }

  /** In every reachable state a request that checks, on arrival or again, is admitted exactly when
      no earlier request waits and its weight fits beside the permits held, or no permit is held; a
      budget of the machine's largest number fits everything. */
  lemma CheckedExactly(budget: usize, actions: seq<Action>, a: Action)
    requires Possible(Init(budget), actions)
    requires Checks(a) && Enabled(After(Init(budget), actions), a)
    ensures var g := After(Init(budget), actions);
            var weights := Weights(g.requests);
            AdmittedBy(g, a) == [Subject(g, a)] <==>
              && (forall u :: u in Waiting(g) ==> Subject(g, a) <= u)
              && (weights == map[] || Sum(weights) + SubjectWeight(g, a) <= budget || budget == USIZE_MAX)
  {
    var g := After(Init(budget), actions);
    InvariantInitially(budget);
    InvariantAfter(Init(budget), actions);
    var slots := LineInOrder(budget, actions);
    hide Lined, Accounted, NoLostWakeup, After, Possible, TicketQueue.Fits, Names;
    if a.Arrive? {
      IdsBelow(g, slots);
      ArriveInOrder(g, slots, a.weight);
      CheckAdmits(Ticketed(g, a.weight), slots + [Of(g.arrived)], g.arrived, a.patient);
      ArriveWaits(g, a.weight);
    } else {
      CheckAdmits(g, slots, a.id, a.patient);
    }
  }

  lemma CheckAdmits(g: Gate, slots: seq<Slot>, t: Id, patient: bool)
    requires Lined(g, slots) && Increasing(Names(slots)) && Accounted(g)
    requires t in g.requests && g.requests[t].Woken?
    ensures var weights := Weights(g.requests);
            Check(g, t, patient).requests[t].Admitted? <==>
              && (forall u :: u in Waiting(g) ==> t <= u)
              && (weights == map[] || Sum(weights) + g.requests[t].weight <= g.budget || g.budget == USIZE_MAX)
  {
    hide Lined, Accounted, TicketQueue.Fits;
    TurnIsTheEarliest(g, slots, t);
    FitsBesideThePermits(g, g.requests[t].weight);
  }

  lemma ArriveInOrder(g: Gate, slots: seq<Slot>, weight: usize)
    requires Lined(g, slots) && Increasing(Names(slots)) && Room(g) && Accounted(g)
    ensures Lined(Ticketed(g, weight), slots + [Of(g.arrived)])
    ensures Increasing(Names(slots + [Of(g.arrived)]))
    ensures Accounted(Ticketed(g, weight))
  {
    hide Lined, Names;
    ArriveLined(g, slots, weight);
    NamesBelow(g, slots);
    IdsBelow(g, slots);
    ArriveWaits(g, weight);
  }

  lemma NamesBelow(g: Gate, slots: seq<Slot>)
    requires Lined(g, slots)
    ensures forall i :: 0 <= i < |Names(slots)| ==> Names(slots)[i] < g.arrived
  {
    forall i | 0 <= i < |Names(slots)| ensures Names(slots)[i] < g.arrived {
      NamesIn(slots, Names(slots)[i]);
    }
  }

  lemma ArriveWaits(g: Gate, weight: usize)
    requires forall t :: t in g.requests ==> t < g.arrived
    ensures Waiting(Ticketed(g, weight)) == Waiting(g) + {g.arrived}
    ensures Weights(Ticketed(g, weight).requests) == Weights(g.requests)
  {}

  lemma FitsBesideThePermits(g: Gate, weight: usize)
    requires Accounted(g)
    ensures var weights := Weights(g.requests);
            TicketQueue.Fits(g.budget, g.queue, weight) <==>
              weights == map[] || Sum(weights) + weight <= g.budget || g.budget == USIZE_MAX
  {
    assert |Weights(g.requests)| == 0 <==> Weights(g.requests) == map[];
  }

  /** A request is admitted only after every earlier one was admitted or refused: when a step admits
      it, the steps before have done so. */
  lemma NobodyOvertakes(budget: usize, actions: seq<Action>, a: Action, earlier: Id)
    requires Possible(Init(budget), actions) && Enabled(After(Init(budget), actions), a)
    requires AdmittedBy(After(Init(budget), actions), a) != []
    requires earlier < AdmittedBy(After(Init(budget), actions), a)[0]
    ensures earlier in Admissions(Init(budget), actions) || earlier in Refusals(Init(budget), actions)
  {
    hide Possible, After, Kept, Lined, Names, Arrivals;
    var g, refused := After(Init(budget), actions), Refusals(Init(budget), actions);
    CheckedExactly(budget, actions, a);
    var slots := LineInOrder(budget, actions);
    IdsBelow(g, slots);
    var waiting := FirstComeFirstServed(budget, actions);
    KeptIsSorted(0, g.arrived, refused);
    assert earlier !in Waiting(g);
  }

  /** The turn never stands at a place nobody holds: nothing is outstanding and it is at the next
      ticket to hand out, or a waiting request has it. */
  lemma TurnIsLive(budget: usize, actions: seq<Action>)
    requires Possible(Init(budget), actions)
    ensures var g := After(Init(budget), actions);
            || (Waiting(g) == {} && g.queue.abandoned == {} && g.queue.serving == g.queue.next)
            || exists t :: t in Waiting(g) && g.requests[t].ticket == g.queue.serving
  {
    InvariantInitially(budget);
    InvariantAfter(Init(budget), actions);
    var g := After(Init(budget), actions);
    var slots: seq<Slot> :| Lined(g, slots);
    Outstanding(g, slots);
    if slots != [] {
      assert slots[0].id in Waiting(g);
    }
  }

  /** Abandoned tickets lie strictly between the turn and the next ticket to hand out, which is as
      many tickets further as are outstanding. */
  lemma AbandonedLieBetween(budget: usize, actions: seq<Action>)
    requires Possible(Init(budget), actions)
    ensures var g := After(Init(budget), actions);
            var n := |Waiting(g)| + |g.queue.abandoned|;
            && g.queue.next == TicketAt(g.queue.serving, n)
            && (forall x :: x in g.queue.abandoned ==> Between(g.queue.serving, x, n))
  {
    hide Lined, Accounted, NoLostWakeup, After, Possible, Between, TicketAt, Waiting;
    InvariantInitially(budget);
    InvariantAfter(Init(budget), actions);
    var g := After(Init(budget), actions);
    var slots: seq<Slot> :| Lined(g, slots);
    Outstanding(g, slots);
    MarksLieBehind(g, slots);
  }

  lemma MarksLieBehind(g: Gate, slots: seq<Slot>)
    requires Lined(g, slots)
    ensures g.queue.next == TicketAt(g.queue.serving, |slots|)
    ensures forall x :: x in g.queue.abandoned ==> Between(g.queue.serving, x, |slots|)
  {
    forall x | x in g.queue.abandoned ensures Between(g.queue.serving, x, |slots|) {
      var i :| 0 <= i < |slots| && slots[i].Left? && x == TicketAt(g.queue.serving, i);
      assert 0 < i;
    }
  }

  /** A new ticket repeats no outstanding one exactly when fewer than 2^64 are outstanding: the
      condition under which `Arrive` is a step of the protocol. */
  lemma TicketsRepeatExactlyWhenFull(budget: usize, actions: seq<Action>)
    requires Possible(Init(budget), actions)
    ensures var g := After(Init(budget), actions);
            Room(g) <==>
              && g.queue.next !in g.queue.abandoned
              && (forall t :: t in Waiting(g) ==> g.requests[t].ticket != g.queue.next)
  {
    InvariantInitially(budget);
    InvariantAfter(Init(budget), actions);
    var g := After(Init(budget), actions);
    var slots: seq<Slot> :| Lined(g, slots);
    Outstanding(g, slots);
    NextTicketRepeats(g, slots);
  }

  lemma NextTicketRepeats(g: Gate, slots: seq<Slot>)
    requires Lined(g, slots)
    ensures |slots| < U64_SIZE <==>
              && g.queue.next !in g.queue.abandoned
              && (forall t :: t in Waiting(g) ==> g.requests[t].ticket != g.queue.next)
  {
    var serving := g.queue.serving;
    if |slots| == U64_SIZE {
      TicketValue(serving, |slots|);
      assert slots[0].id in Waiting(g) && g.requests[slots[0].id].ticket == g.queue.next;
    } else {
      forall i | 0 <= i < |slots| ensures TicketAt(serving, i) != g.queue.next {
        TicketsDiffer(serving, i, |slots|);
      }
      forall t | t in Waiting(g) ensures g.requests[t].ticket != g.queue.next {
        var i :| 0 <= i < |slots| && slots[i] == Of(t);
      }
    }
  }

  // ----- draining -----

  /** What a request still has to do when at most `n` others can be woken by it. */
  ghost function PhaseRank(n: nat, p: Phase): nat {
    match p
    case Sleeping(_, _) => 2 * n + 4
    case Woken(_, _) => 2 * n + 5
    case Admitted(_) => 2 * n + 3
    case Running(_) => n + 2
    case Returned => n + 1
    case Refused => n + 1
  }

  ghost function Ranks(n: nat, requests: map<Id, Phase>): map<Id, nat> {
    map t | t in requests :: PhaseRank(n, requests[t])
  }

  ghost function Rank(n: nat, g: Gate): nat { Sum(Ranks(n, g.requests)) }

  lemma RankPut(n: nat, requests: map<Id, Phase>, t: Id, p: Phase)
    requires t in requests
    ensures Sum(Ranks(n, requests[t := p])) + PhaseRank(n, requests[t]) == Sum(Ranks(n, requests)) + PhaseRank(n, p)
  {
    assert Ranks(n, requests[t := p]) == Ranks(n, requests)[t := PhaseRank(n, p)];
    SumPut(Ranks(n, requests), t, PhaseRank(n, p));
    SumPick(Ranks(n, requests), t);
  }

  lemma NotifyRank(n: nat, g: Gate, t: Id)
    requires |g.requests| <= n && t in g.requests && g.requests[t].WillNotify()
    ensures Rank(n, NotifyAll(g, t)) < Rank(n, g)
  {
    var roused := AllRoused(g.requests);
    RousedRank(n, g.requests, t);
    if g.requests[t].Admitted? {
      PermitRank(n, roused, t, g.requests[t].weight);
    }
  }

  lemma NotifyShrinks(g: Gate, t: Id)
    requires t in g.requests && g.requests[t].WillNotify()
    ensures |NotifyAll(g, t).requests| <= |g.requests|
  {
    var left := NotifyAll(g, t).requests.Keys;
    assert left == if g.requests[t].Admitted? then g.requests.Keys else g.requests.Keys - {t};
  }

  lemma PermitRank(n: nat, requests: map<Id, Phase>, t: Id, weight: usize)
    ensures Sum(Ranks(n, requests[t := Running(weight)])) == n + 2 + Sum(Ranks(n, requests - {t}))
  {
    var running := requests[t := Running(weight)];
    SumPick(Ranks(n, running), t);
    assert Ranks(n, running) - {t} == Ranks(n, requests - {t});
  }

  /** Waking everybody but `t` costs at most one step for each. */
  lemma RousedRank(n: nat, requests: map<Id, Phase>, t: Id)
    requires t in requests
    ensures var roused := AllRoused(requests);
            Sum(Ranks(n, roused - {t})) + PhaseRank(n, requests[t]) < Sum(Ranks(n, requests)) + |requests|
  {
    var roused := AllRoused(requests);
    var others := Ranks(n, requests) - {t};
    SumPick(Ranks(n, requests), t);
    assert others.Keys == requests.Keys - {t};
    assert |others.Keys| == |requests.Keys| - 1;
    SumRaised(others, Ranks(n, roused - {t}));
  }

  lemma StepRank(n: nat, g: Gate, a: Action)
    requires |g.requests| <= n && Enabled(g, a) && !a.Arrive?
    ensures |Step(g, a).requests| <= |g.requests|
    ensures if a.Wake? then Rank(n, Step(g, a)) == Rank(n, g) + 1 else Rank(n, Step(g, a)) < Rank(n, g)
  {
    if a.Notify? {
      NotifyRank(n, g, a.id);
      NotifyShrinks(g, a.id);
    } else {
      var p := Step(g, a).requests[a.id];
      assert Step(g, a).requests == g.requests[a.id := p];
      assert g.requests[a.id := p].Keys == g.requests.Keys;
      RankPut(n, g.requests, a.id, p);
    }
  }

  ghost function Wakes(actions: seq<Action>): nat {
    if actions == [] then 0 else (if actions[0].Wake? then 1 else 0) + Wakes(actions[1..])
  }

  lemma {:induction false} RunRank(n: nat, g: Gate, actions: seq<Action>)
    requires Possible(g, actions) && |g.requests| <= n
    requires forall a :: a in actions ==> !a.Arrive?
    ensures |actions| + Rank(n, After(g, actions)) <= Rank(n, g) + 2 * Wakes(actions)
    decreases |actions|
  {
    if actions != [] {
      StepRank(n, g, actions[0]);
      RunRank(n, Step(g, actions[0]), actions[1..]);
    }
  }

  /** Nothing can happen but a new arrival or a spurious wakeup. */
  ghost predicate Quiet(g: Gate) {
    forall a :: Enabled(g, a) ==> a.Arrive? || a.Wake?
  }

  /** A gate with nothing left to do is empty: no request waits, runs or has to notify. */
  lemma QuietIsDrained(g: Gate)
    requires Invariant(g) && Quiet(g)
    ensures g.requests == map[] && g.queue.abandoned == {}
    ensures g.queue.serving == g.queue.next && g.queue.inFlight == 0 && g.queue.running == 0
  {
    forall t | t in g.requests ensures g.requests[t].Sleeping? {
      assert !Enabled(g, Recheck(t, true));
      assert !Enabled(g, Notify(t));
      assert !Enabled(g, Release(t));
    }
    assert Weights(g.requests) == map[];
    var slots: seq<Slot> :| Lined(g, slots);
    Outstanding(g, slots);
    if slots != [] {
      assert MayStart(g, g.requests[slots[0].id]);
      assert false;
    }
    assert g.requests == map[];
  }

  /** Once nobody new arrives the gate drains: the steps it can still take, spurious wakeups
      aside, are bounded by what it holds, and when no step is left it is empty. */
  lemma GateDrains(budget: usize, before: seq<Action>, draining: seq<Action>)
    requires Possible(Init(budget), before)
    requires Possible(After(Init(budget), before), draining)
    requires forall a :: a in draining ==> !a.Arrive?
    ensures var g := After(Init(budget), before);
            var end := After(g, draining);
            && |draining| <= Rank(|g.requests|, g) + 2 * Wakes(draining)
            && (end.requests != map[] ==>
                  exists a :: Enabled(end, a) && !a.Arrive? && !a.Wake? && (a.Recheck? ==> a.patient))
            && (Quiet(end) ==> end == Gate(budget, end.queue, g.arrived, map[])
                               && end.queue.abandoned == {} && end.queue.serving == end.queue.next
                               && end.queue.inFlight == 0 && end.queue.running == 0)
  {
    InvariantInitially(budget);
    InvariantAfter(Init(budget), before);
    var g := After(Init(budget), before);
    InvariantAfter(g, draining);
    RunRank(|g.requests|, g, draining);
    NoArrivals(g, draining);
    var end := After(g, draining);
    if Quiet(end) {
      QuietIsDrained(end);
    } else {
      var a :| Enabled(end, a) && !a.Arrive? && !a.Wake?;
      if a.Recheck? {
        assert Enabled(end, Recheck(a.id, true));
      }
    }
  }

  lemma {:induction false} NoArrivals(g: Gate, actions: seq<Action>)
    requires Possible(g, actions) && forall a :: a in actions ==> !a.Arrive?
    ensures After(g, actions).arrived == g.arrived && After(g, actions).budget == g.budget
    decreases |actions|
  {
    if actions != [] {
      NoArrivals(Step(g, actions[0]), actions[1..]);
    }
  }

  lemma {:induction false} PatientAreNotRefused(g: Gate, actions: seq<Action>)
    requires Possible(g, actions) && forall a :: a in actions && Checks(a) ==> a.patient
    ensures Refusals(g, actions) == {}
    decreases |actions|
  {
    if actions != [] {
      PatientAreNotRefused(Step(g, actions[0]), actions[1..]);
    }
  }

  /** Nobody starves: when no wait runs out and nothing is left to do, every request that ever
      arrived was admitted, in the order of arrival. */
  lemma NobodyStarves(budget: usize, actions: seq<Action>)
    requires Possible(Init(budget), actions)
    requires forall a :: a in actions && Checks(a) ==> a.patient
    requires Quiet(After(Init(budget), actions))
    ensures Admissions(Init(budget), actions) == Arrivals(0, After(Init(budget), actions).arrived)
  {
    var g := After(Init(budget), actions);
    InvariantInitially(budget);
    InvariantAfter(Init(budget), actions);
    QuietIsDrained(g);
    PatientAreNotRefused(Init(budget), actions);
    var waiting := FirstComeFirstServed(budget, actions);
    if waiting != [] {
      HeadIsIn(waiting);
      assert false;
    }
    KeptAll(Arrivals(0, g.arrived), {});
  }

  lemma HeadIsIn(ids: seq<Id>)
    requires ids != []
    ensures exists t :: t in ids
  {
    assert ids[0] in ids;
  }
}
