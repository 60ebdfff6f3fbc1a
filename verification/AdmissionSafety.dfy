/** What every step of the admission protocol keeps. */
module AdmissionSafety {
  import opened Machine
  import opened Sums
  import opened AdmissionGate
  import opened AdmissionLine
  import TicketQueue

  predicate Checks(a: Action) { a.Arrive? || a.Recheck? }

  /** The request a step checks at the head of the waiting loop. */
  ghost function Subject(g: Gate, a: Action): Id
    requires Checks(a)
  {
    if a.Arrive? then g.arrived else a.id
  }

  /** The request a step admits, if any. */
  ghost function AdmittedBy(g: Gate, a: Action): seq<Id>
    requires Enabled(g, a)
  {
    if Checks(a) && Step(g, a).requests[Subject(g, a)].Admitted? then [Subject(g, a)] else []
  }

  /** The request a step refuses as busy, if any. */
  ghost function RefusedBy(g: Gate, a: Action): set<Id>
    requires Enabled(g, a)
  {
    if Checks(a) && Step(g, a).requests[Subject(g, a)].Refused? then {Subject(g, a)} else {}
  }

  // ----- the line -----

  lemma CheckLined(g: Gate, slots: seq<Slot>, t: Id, patient: bool) returns (slots': seq<Slot>)
    requires Lined(g, slots) && t in g.requests && g.requests[t].Woken?
    ensures Lined(Check(g, t, patient), slots')
    ensures var p := Check(g, t, patient).requests[t];
            && (p.Admitted? ==> Names(slots) == [t] + Names(slots'))
            && (p.Refused? ==> Names(slots') == Kept(Names(slots), {t}))
            && (p.Sleeping? ==> slots' == slots)
  {
    var i :| 0 <= i < |slots| && slots[i] == Of(t);
    if i > 0 {
      TicketsDiffer(g.queue.serving, 0, i);
    }
    var p := Check(g, t, patient).requests[t];
    if p.Sleeping? {
      slots' := slots;
    } else if i == 0 {
      HeadUnmarked(g.queue.serving, slots);
      assert g.queue.abandoned - {g.queue.serving} == g.queue.abandoned;
      ServeHead(g, slots, p);
      ServeNames(slots);
      slots' := Trim(slots[1..]);
      HeadKept(Names(slots), Names(slots'), t, g, slots);
    } else {
      LeavePlace(g, slots, i, p);
      slots' := slots[i := Left];
    }
  }

  lemma HeadKept(names: seq<Id>, rest: seq<Id>, t: Id, g: Gate, slots: seq<Slot>)
    requires Lined(g, slots) && slots != [] && slots[0] == Of(t)
    requires names == Names(slots) == [t] + rest
    ensures Kept(names, {t}) == rest
  {
    assert names[1..] == rest;
    assert rest == Names(slots[1..]);
    forall j | 0 < j < |slots| ensures slots[j] != slots[0] {
      PlacesDiffer(g, slots, 0, j);
    }
    NamesIn(slots[1..], t);
    KeptAll(rest, {t});
  }

  /** Every step keeps the line, and changes its names by what it adds, admits and refuses. */
  lemma StepLined(g: Gate, slots: seq<Slot>, a: Action) returns (slots': seq<Slot>)
    requires Lined(g, slots) && Enabled(g, a)
    ensures Lined(Step(g, a), slots')
    ensures Kept(Names(slots) + Joining(g, a), RefusedBy(g, a)) == AdmittedBy(g, a) + Names(slots')
  {
    hide Lined, Kept, Names, Check;
    match a
    case Arrive(weight, patient) =>
      ArriveLined(g, slots, weight);
      slots' := CheckKept(Ticketed(g, weight), slots + [Of(g.arrived)], g.arrived, patient);
    case Recheck(t, patient) =>
      assert Names(slots) + [] == Names(slots);
      slots' := CheckKept(g, slots, t, patient);
    case _ =>
      slots' := slots;
      assert Names(slots) + [] == Names(slots) == [] + Names(slots);
      KeptAll(Names(slots), {});
      StaysLined(g, slots, a);
  }

  /** A new request stands at the end of the line. */
  lemma ArriveLined(g: Gate, slots: seq<Slot>, weight: usize)
    requires Lined(g, slots) && Room(g)
    ensures Lined(Ticketed(g, weight), slots + [Of(g.arrived)])
    ensures Names(slots + [Of(g.arrived)]) == Names(slots) + [g.arrived]
  {
    Outstanding(g, slots);
    JoinLine(g, slots, weight);
    NamesAppend(slots, g.arrived);
  }

  /** A check keeps the line but for the request it admits or refuses. */
  lemma CheckKept(g: Gate, slots: seq<Slot>, t: Id, patient: bool) returns (slots': seq<Slot>)
    requires Lined(g, slots) && t in g.requests && g.requests[t].Woken?
    ensures Lined(Check(g, t, patient), slots')
    ensures var p := Check(g, t, patient).requests[t];
            Kept(Names(slots), if p.Refused? then {t} else {}) == (if p.Admitted? then [t] else []) + Names(slots')
  {
    hide Lined, Kept, Names;
    slots' := CheckLined(g, slots, t, patient);
    KeptAll(Names(slots), {});
  }

  ghost function Joining(g: Gate, a: Action): seq<Id> {
    if a.Arrive? then [g.arrived] else []
  }

  lemma StaysLined(g: Gate, slots: seq<Slot>, a: Action)
    requires Lined(g, slots) && Enabled(g, a) && !Checks(a)
    ensures Lined(Step(g, a), slots)
  {}

  // ----- the byte budget -----

  /** The weight of every permit held. */
  ghost function Weights(requests: map<Id, Phase>): map<Id, nat> {
    map t | t in requests && requests[t].Holds() :: requests[t].weight
  }

  /** The counters are the permits: how many there are and what they weigh together. Only a
      budget at the machine's largest number can make a sum saturate. */
  ghost predicate Accounted(g: Gate) {
    && g.queue.running == |Weights(g.requests)|
    && g.queue.inFlight <= Sum(Weights(g.requests))
    && (g.budget < USIZE_MAX ==>
          && g.queue.inFlight == Sum(Weights(g.requests))
          && (g.queue.inFlight <= g.budget || g.queue.running == 1))
  }

  lemma AdmitWeight(requests: map<Id, Phase>, t: Id, weight: usize)
    requires t in requests ==> !requests[t].Holds()
    ensures var after := Weights(requests[t := Admitted(weight)]);
            Sum(after) == Sum(Weights(requests)) + weight && |after| == |Weights(requests)| + 1
  {
    assert Weights(requests[t := Admitted(weight)]) == Weights(requests)[t := weight];
    SumNew(Weights(requests), t, weight);
  }

  lemma CheckAccounted(g: Gate, t: Id, patient: bool)
    requires Accounted(g) && t in g.requests && g.requests[t].Woken?
    ensures Accounted(Check(g, t, patient))
  {
    var g' := Check(g, t, patient);
    var before := Weights(g.requests);
    if g'.requests[t].Admitted? {
      AdmitWeight(g.requests, t, g.requests[t].weight);
      assert before == map[] ==> Sum(before) == 0;
      assert |before| == 0 ==> before == map[];
    } else {
      assert Weights(g'.requests) == before;
    }
  }

  lemma ReturnWeight(requests: map<Id, Phase>, t: Id)
    requires t in requests && requests[t].Running?
    ensures var before, after := Weights(requests), Weights(requests[t := Returned]);
            && Sum(before) == requests[t].weight + Sum(after)
            && |before| == |after| + 1
            && (|after| == 0 ==> Sum(after) == 0)
  {
    var before, after := Weights(requests), Weights(requests[t := Returned]);
    SumPick(before, t);
    assert after == before - {t};
    assert after.Keys == before.Keys - {t};
    assert |after| == 0 ==> after == map[];
  }

  lemma StepAccounted(g: Gate, a: Action)
    requires Accounted(g) && Enabled(g, a) && (forall t :: t in g.requests ==> t < g.arrived)
    ensures Accounted(Step(g, a))
  {
    match a
    case Arrive(weight, patient) =>
      assert Weights(Ticketed(g, weight).requests) == Weights(g.requests);
      CheckAccounted(Ticketed(g, weight), g.arrived, patient);
    case Recheck(t, patient) =>
      CheckAccounted(g, t, patient);
    case Release(t) =>
      ReturnWeight(g.requests, t);
    case _ =>
      SameWeights(g, a);
  }

  lemma SameWeights(g: Gate, a: Action)
    requires Enabled(g, a) && (a.Wake? || a.Notify?)
    ensures Weights(Step(g, a).requests) == Weights(g.requests)
  {}

  // ----- wakeups -----

  /** A request asleep although it may start has a notification coming. */
  ghost predicate NoLostWakeup(g: Gate) {
    (exists t :: t in g.requests && g.requests[t].Sleeping? && MayStart(g, g.requests[t])) ==>
      exists u :: u in g.requests && g.requests[u].WillNotify()
  }

  lemma StepKeepsWakeups(g: Gate, a: Action)
    requires NoLostWakeup(g) && Enabled(g, a) && (forall t :: t in g.requests ==> t < g.arrived)
    ensures NoLostWakeup(Step(g, a))
  {
    var g' := Step(g, a);
    if t :| t in g'.requests && g'.requests[t].Sleeping? && MayStart(g', g'.requests[t]) {
      var actor := if a.Arrive? then g.arrived else a.id;
      if a.Notify? {
        assert false;
      } else if actor in g'.requests && g'.requests[actor].WillNotify() {
      } else {
        assert g'.queue.serving == g.queue.serving;
        var weight := g'.requests[t].weight;
        assert TicketQueue.Fits(g'.budget, g'.queue, weight) <==> TicketQueue.Fits(g.budget, g.queue, weight);
        assert t != actor;
        assert t in g.requests && g.requests[t] == g'.requests[t];
        var u :| u in g.requests && g.requests[u].WillNotify();
        assert u in g'.requests && g'.requests[u].WillNotify();
      }
    }
  }
}
