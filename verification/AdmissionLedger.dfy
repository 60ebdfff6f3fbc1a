/** The admission protocol against a ledger kept outside it: what each request weighed when it arrived,
    who was admitted and who gave the permit back. */
module AdmissionLedger {
  import opened Machine
  import opened Prelude
  import opened Sums
  import opened AdmissionGate
  import opened AdmissionLine
  import opened AdmissionSafety
  import opened AdmissionRuns
  import TicketQueue

  // ----- the ledger -----

  /** The weights requests arrived with, in order: a request's id is its place. */
  ghost function Arrived(actions: seq<Action>): seq<usize> {
    if actions == [] then [] else ArrivedBy(actions[0]) + Arrived(actions[1..])
  }

  ghost function ArrivedBy(a: Action): seq<usize> { if a.Arrive? then [a.weight] else [] }

  /** The requests whose permits were dropped. */
  ghost function Released(actions: seq<Action>): set<Id> {
    set a | a in actions && a.Release? :: a.id
  }

  /** The permits a run leaves held: admitted and not dropped, each with the weight it arrived with. */
  ghost function Permits(budget: usize, actions: seq<Action>): map<Id, nat>
    requires Possible(Init(budget), actions)
  {
    Held(Ids(Admissions(Init(budget), actions)) - Released(actions), Arrived(actions))
  }

  ghost function Held(ids: set<Id>, weights: seq<usize>): map<Id, nat> {
    map t | t in ids && t < |weights| :: weights[t]
  }

  ghost function Ids(ids: seq<Id>): set<Id> { set t | t in ids }

  // ----- weights are the arrival weights -----

  predicate Weighs(p: Phase) { p.Waits() || p.Holds() }

  /** Every request at the gate weighs what it arrived with. */
  ghost predicate Weighed(g: Gate, weights: seq<usize>) {
    && |weights| == g.arrived
    && forall t :: t in g.requests ==> t < |weights| && (Weighs(g.requests[t]) ==> g.requests[t].weight == weights[t])
  }

  lemma StepWeighed(g: Gate, a: Action, weights: seq<usize>)
    requires Weighed(g, weights) && Enabled(g, a)
    ensures Weighed(Step(g, a), weights + ArrivedBy(a))
  {}

  lemma {:induction false} RunWeighed(g: Gate, actions: seq<Action>, weights: seq<usize>)
    requires Weighed(g, weights) && Possible(g, actions)
    ensures Weighed(After(g, actions), weights + Arrived(actions))
    decreases |actions|
  {
    hide Weighed, Step;
    if actions == [] {
      assert weights + [] == weights;
    } else {
      StepWeighed(g, actions[0], weights);
      RunWeighed(Step(g, actions[0]), actions[1..], weights + ArrivedBy(actions[0]));
      Regroup(weights, ArrivedBy(actions[0]), Arrived(actions[1..]));
    }
  }

  // ----- holders are those admitted and not released -----

  ghost function Holders(g: Gate): set<Id> {
    set t | t in g.requests && g.requests[t].Holds()
  }

  ghost function ReleasedBy(a: Action): set<Id> { if a.Release? then {a.id} else {} }

  lemma StepHolders(g: Gate, a: Action)
    requires Enabled(g, a) && forall t :: t in g.requests ==> t < g.arrived
    ensures Holders(Step(g, a)) == Holders(g) + Ids(AdmittedBy(g, a)) - ReleasedBy(a)
  {}

  /** Only a request that waits, or one still to arrive, can be admitted. */
  lemma {:induction false} AdmittedWereWaiting(g: Gate, actions: seq<Action>, t: Id)
    requires Possible(g, actions) && t < g.arrived && (t in g.requests ==> !g.requests[t].Waits())
    ensures t !in Admissions(g, actions)
    decreases |actions|
  {
    if actions != [] {
      AdmittedWereWaiting(Step(g, actions[0]), actions[1..], t);
    }
  }

  lemma ReleasedRunsOn(actions: seq<Action>)
    requires actions != []
    ensures Released(actions) == ReleasedBy(actions[0]) + Released(actions[1..])
  {
    assert actions == [actions[0]] + actions[1..];
  }

  lemma {:induction false} RunHolders(g: Gate, slots: seq<Slot>, actions: seq<Action>)
    requires Lined(g, slots) && Possible(g, actions)
    ensures Holders(After(g, actions)) == Holders(g) + Ids(Admissions(g, actions)) - Released(actions)
    decreases |actions|
  {
    hide Lined, Step, AdmittedBy, Released;
    IdsBelow(g, slots);
    if actions == [] {
      NothingReleased();
    } else {
      var g1, rest := Step(g, actions[0]), actions[1..];
      var slots1 := StepLined(g, slots, actions[0]);
      RunHolders(g1, slots1, rest);
      StepHolders(g, actions[0]);
      ReleasedRunsOn(actions);
      forall t | t in ReleasedBy(actions[0]) ensures t !in Admissions(g1, rest) {
        ReturnedStays(g, actions[0]);
        AdmittedWereWaiting(g1, rest, t);
      }
      hide Holders, ReleasedBy;
      assert Ids(Admissions(g, actions)) == Ids(AdmittedBy(g, actions[0])) + Ids(Admissions(g1, rest));
    }
  }

  lemma NothingReleased()
    ensures Released([]) == {}
  {}

  lemma ReturnedStays(g: Gate, a: Action)
    requires Enabled(g, a) && a.Release? && forall t :: t in g.requests ==> t < g.arrived
    ensures a.id < Step(g, a).arrived && !Step(g, a).requests[a.id].Waits()
  {}

  /** The phases hold exactly the permits of the ledger, and a request that waits weighs what it
      arrived with. */
  lemma PhasesAreTheLedger(budget: usize, actions: seq<Action>)
    requires Possible(Init(budget), actions)
    ensures var g := After(Init(budget), actions);
            && Weights(g.requests) == Permits(budget, actions)
            && |Arrived(actions)| == g.arrived
            && (forall t :: t in Waiting(g) ==> t < g.arrived && g.requests[t].weight == Arrived(actions)[t])
  {
    hide Possible, After, Admissions, Arrived, Released, Weighed, Lined, Weights, Held;
    var g := After(Init(budget), actions);
    InvariantInitially(budget);
    NobodyYet(budget);
    RunWeighed(Init(budget), actions, []);
    RunHolders(Init(budget), [], actions);
    assert [] + Arrived(actions) == Arrived(actions);
    assert Holders(g) == Ids(Admissions(Init(budget), actions)) - Released(actions);
    HeldWeights(g, Arrived(actions));
  }

  lemma NobodyYet(budget: usize)
    ensures Weighed(Init(budget), []) && Holders(Init(budget)) == {}
  {}

  lemma HeldWeights(g: Gate, weights: seq<usize>)
    requires Weighed(g, weights)
    ensures Weights(g.requests) == Held(Holders(g), weights)
    ensures |weights| == g.arrived
    ensures forall t :: t in Waiting(g) ==> t < g.arrived && g.requests[t].weight == weights[t]
  {}

  // ----- the theorems, in the ledger's terms -----

  /** In every reachable state the counters are the permits held, at the weights they arrived with,
      and either they weigh no more than the budget together or a single one, heavier than the
      budget, runs alone. */
  lemma BytesInFlightAreThePermits(budget: usize, actions: seq<Action>)
    requires budget < USIZE_MAX && Possible(Init(budget), actions)
    ensures var g := After(Init(budget), actions);
            var permits := Permits(budget, actions);
            && g.queue.inFlight == Sum(permits)
            && g.queue.running == |permits|
            && (Sum(permits) <= budget ||
                exists t :: t in permits && permits == map[t := permits[t]] && permits[t] > budget)
  {
    hide Possible, After, Permits, Weights;
    PhasesAreTheLedger(budget, actions);
    CountersAreTheWeights(budget, actions);
  }

  /** The counter is the weight of the permits in every reachable state exactly when the budget is
      below the machine's largest number. */
  lemma CounterIsExactBelowTheLargest(budget: usize)
    ensures budget < USIZE_MAX <==>
              forall actions :: Possible(Init(budget), actions) ==>
                After(Init(budget), actions).queue.inFlight == Sum(Permits(budget, actions))
  {
    hide Possible, After, Permits, Weights;
    if budget < USIZE_MAX {
      forall actions | Possible(Init(budget), actions)
        ensures After(Init(budget), actions).queue.inFlight == Sum(Permits(budget, actions))
      {
        BytesInFlightAreThePermits(budget, actions);
      }
    } else {
      SaturationLosesBytes();
      var w := USIZE_MAX;
      PhasesAreTheLedger(budget, [Arrive(w, true), Arrive(w, true), Notify(0), Release(0)]);
      var lost := map[1 as Id := USIZE_MAX];
      SumPick(lost, 1);
    }
  }

  /** The weight the request of a check arrived with. */
  ghost function CheckedWeight(actions: seq<Action>, a: Action): usize
    requires Checks(a) && (a.Recheck? ==> a.id < |Arrived(actions)|)
  {
    if a.Arrive? then a.weight else Arrived(actions)[a.id]
  }

  /** In every reachable state a request that checks, on arrival or again, is admitted exactly when
      no earlier request waits and its weight fits beside the permits held, or no permit is held; a
      budget of the machine's largest number fits everything. */
  lemma AdmittedExactlyWhenItMay(budget: usize, actions: seq<Action>, a: Action)
    requires Possible(Init(budget), actions)
    requires Checks(a) && Enabled(After(Init(budget), actions), a)
    ensures a.Recheck? ==> a.id < |Arrived(actions)|
    ensures var g := After(Init(budget), actions);
            var permits := Permits(budget, actions);
            AdmittedBy(g, a) == [Subject(g, a)] <==>
              && (forall u :: u in Waiting(g) ==> Subject(g, a) <= u)
              && (permits == map[] || Sum(permits) + CheckedWeight(actions, a) <= budget || budget == USIZE_MAX)
  {
    hide Possible, After, Permits, Weights, AdmittedBy, Arrived;
    PhasesAreTheLedger(budget, actions);
    CheckedExactly(budget, actions, a);
    var g := After(Init(budget), actions);
    assert a.Recheck? ==> a.id in Waiting(g);
  }

  /** The queue as the check of a step finds it, the ticket of an arriving request taken. */
  ghost function CheckedQueue(g: Gate, a: Action): TicketQueue.View {
    if a.Arrive? then TicketQueue.Take(g.queue) else g.queue
  }

  ghost function CheckedTicket(g: Gate, a: Action): u64
    requires Checks(a) && Enabled(g, a)
  {
    if a.Arrive? then g.queue.next else g.requests[a.id].ticket
  }

  /** What a check answers, in every reachable state: a request that is not admitted is refused
      exactly when it is out of patience and otherwise waits on; and the queue is what
      `TicketQueue.Queue`'s `TakeTicket` and `Check` make of it, with the weight it arrived with. */
  lemma CheckAnswers(budget: usize, actions: seq<Action>, a: Action)
    requires Possible(Init(budget), actions)
    requires Checks(a) && Enabled(After(Init(budget), actions), a)
    ensures a.Recheck? ==> a.id < |Arrived(actions)|
    ensures var g := After(Init(budget), actions);
            var t, g' := Subject(g, a), Step(g, a);
            && (RefusedBy(g, a) == {t} <==> AdmittedBy(g, a) == [] && !a.patient)
            && (t in Waiting(g') <==> AdmittedBy(g, a) == [] && a.patient)
            && g'.queue == if AdmittedBy(g, a) == [t]
                           then TicketQueue.Admit(CheckedQueue(g, a), CheckedWeight(actions, a))
                           else if RefusedBy(g, a) == {t}
                           then TicketQueue.GiveUp(CheckedQueue(g, a), CheckedTicket(g, a))
                           else CheckedQueue(g, a)
  {
    hide Possible, After, Arrived;
    PhasesAreTheLedger(budget, actions);
    var g := After(Init(budget), actions);
    assert a.Recheck? ==> a.id in Waiting(g);
    var t, g' := Subject(g, a), Step(g, a);
    assert g'.requests[t].Admitted? || g'.requests[t].Refused? || g'.requests[t].Sleeping?;
    assert t in Waiting(g') <==> g'.requests[t].Sleeping?;
  }

  /** A wait can run out at any time: from every reachable state a sleeping request wakes and, with its
      patience at an end, is refused, unless it may start by then. */
  lemma TimeoutRefuses(budget: usize, actions: seq<Action>, t: Id)
    requires Possible(Init(budget), actions)
    requires var g := After(Init(budget), actions); t in g.requests && g.requests[t].Sleeping?
    ensures var g := After(Init(budget), actions);
            && Possible(g, [Wake(t), Recheck(t, false)])
            && Refusals(g, [Wake(t), Recheck(t, false)]) == (if MayStart(g, g.requests[t]) then {} else {t})
            && Admissions(g, [Wake(t), Recheck(t, false)]) == (if MayStart(g, g.requests[t]) then [t] else [])
  {
    hide Possible, After, Admissions, Refusals;
    var g := After(Init(budget), actions);
    TwoSteps(g, Wake(t), Recheck(t, false));
  }

  lemma TwoSteps(g: Gate, a: Action, b: Action)
    requires Enabled(g, a) && Enabled(Step(g, a), b)
    ensures Possible(g, [a, b])
    ensures Admissions(g, [a, b]) == AdmittedBy(g, a) + AdmittedBy(Step(g, a), b)
    ensures Refusals(g, [a, b]) == RefusedBy(g, a) + RefusedBy(Step(g, a), b)
  {
    hide Step, Enabled, AdmittedBy, RefusedBy;
    var g1, g2 := Step(g, a), Step(Step(g, a), b);
    assert [a, b][1..] == [b] && [b][1..] == [];
    assert Possible(g2, []) && Possible(g1, [b]);
    assert Admissions(g1, [b]) == AdmittedBy(g1, b) + Admissions(g2, []);
    assert Refusals(g1, [b]) == RefusedBy(g1, b) + Refusals(g2, []);
  }
}
