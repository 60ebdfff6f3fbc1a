/** Waiting at the admission gate while others keep arriving: how long a request can wait, and when
    the line of tickets is full. */
module AdmissionProgress {
  import opened Machine
  import opened Prelude
  import opened Sums
  import opened AdmissionGate
  import opened AdmissionLine
  import opened AdmissionSafety
  import opened AdmissionRuns
  import TicketQueue

  // ----- the order of requests, step by step -----

  /** Permits are held by requests earlier than any that waits. */
  ghost predicate HoldersFirst(g: Gate) {
    forall u, t :: u in g.requests && t in g.requests && g.requests[u].Holds() && g.requests[t].Waits() ==> u < t
  }

  /** An earlier request has a notification to send. */
  ghost predicate Notified(g: Gate, t: Id) {
    exists u :: u in g.requests && u < t && g.requests[u].WillNotify()
  }

  /** A request asleep although it may start has a notification coming from an earlier one. */
  ghost predicate EarlierNotifies(g: Gate) {
    forall t :: t in g.requests && g.requests[t].Sleeping? && MayStart(g, g.requests[t]) ==> Notified(g, t)
  }

  ghost predicate Orderly(g: Gate, slots: seq<Slot>) {
    Lined(g, slots) && Increasing(Names(slots)) && HoldersFirst(g) && EarlierNotifies(g)
  }

  lemma {:induction false} KeptIncreases(ids: seq<Id>, gone: set<Id>)
    requires Increasing(ids)
    ensures Increasing(Kept(ids, gone)) && forall t :: t in Kept(ids, gone) ==> t in ids
  {
    if ids != [] {
      var rest := ids[1..];
      assert forall i :: 0 <= i < |rest| ==> rest[i] == ids[i + 1];
      KeptIncreases(rest, gone);
      var kept := Kept(rest, gone);
      forall j | 0 <= j < |kept| ensures ids[0] < kept[j] {
        assert kept[j] in rest;
      }
    }
  }

  lemma StepIncreases(g: Gate, slots: seq<Slot>, a: Action) returns (slots': seq<Slot>)
    requires Lined(g, slots) && Increasing(Names(slots)) && Enabled(g, a)
    ensures Lined(Step(g, a), slots') && Increasing(AdmittedBy(g, a) + Names(slots'))
  {
    hide Lined, Names, Kept, Step, RefusedBy, AdmittedBy;
    slots' := StepLined(g, slots, a);
    NamesBelow(g, slots);
    KeptIncreases(Names(slots) + Joining(g, a), RefusedBy(g, a));
  }

  lemma WaitersAreNamed(g: Gate, slots: seq<Slot>)
    requires Lined(g, slots)
    ensures forall t :: t in g.requests && g.requests[t].Waits() ==> t in Names(slots)
  {
    forall t | t in g.requests && g.requests[t].Waits() ensures t in Names(slots) {
      NamesIn(slots, t);
    }
  }

  lemma StepHoldersFirst(g: Gate, slots: seq<Slot>, a: Action, slots': seq<Slot>)
    requires Orderly(g, slots) && Enabled(g, a)
    requires Lined(Step(g, a), slots') && Increasing(AdmittedBy(g, a) + Names(slots'))
    ensures HoldersFirst(Step(g, a))
  {
    IdsBelow(g, slots);
    WaitersAreNamed(Step(g, a), slots');
    hide Lined, EarlierNotifies, Names;
    var g' := Step(g, a);
    forall u, t | u in g'.requests && t in g'.requests && g'.requests[u].Holds() && g'.requests[t].Waits()
      ensures u < t
    {
      WasWaiting(g, a, t);
      if u in AdmittedBy(g, a) {
        FirstIsLeast(u, Names(slots'), t);
      } else {
        WasHolding(g, a, u);
      }
    }
  }

  lemma FirstIsLeast(u: Id, ids: seq<Id>, t: Id)
    requires Increasing([u] + ids) && t in ids
    ensures u < t
  {
    var i :| 0 <= i < |ids| && ids[i] == t;
    assert ([u] + ids)[0] == u && ([u] + ids)[i + 1] == t;
  }

  lemma WasWaiting(g: Gate, a: Action, t: Id)
    requires Enabled(g, a) && t in Step(g, a).requests && Step(g, a).requests[t].Waits()
    ensures (t in g.requests && g.requests[t].Waits()) || (a.Arrive? && t == g.arrived)
  {}

  lemma WasHolding(g: Gate, a: Action, u: Id)
    requires Enabled(g, a) && u in Step(g, a).requests && Step(g, a).requests[u].Holds()
    ensures u in AdmittedBy(g, a) || (u in g.requests && g.requests[u].Holds())
  {}

  /** A step that is no notification leaves the notifiers it finds. */
  lemma NotifiedStays(g: Gate, a: Action, t: Id)
    requires Enabled(g, a) && !a.Notify? && Notified(g, t) && forall u :: u in g.requests ==> u < g.arrived
    ensures Notified(Step(g, a), t)
  {
    var u :| u in g.requests && u < t && g.requests[u].WillNotify();
    assert u in Step(g, a).requests && Step(g, a).requests[u].WillNotify();
  }

  /** A request that gives its turn up is the earliest of all that wait. */
  lemma RefusedIsEarliest(g: Gate, slots: seq<Slot>, a: Action, t: Id)
    requires Lined(g, slots) && Increasing(Names(slots)) && Enabled(g, a) && Accounted(g)
    requires Checks(a) && Step(g, a).queue.serving != g.queue.serving
    requires t in g.requests && g.requests[t].Waits() && t != Subject(g, a)
    ensures Subject(g, a) < t
  {
    hide Lined, Names, Accounted;
    if a.Arrive? {
      IdsBelow(g, slots);
      ArriveInOrder(g, slots, a.weight);
      assert t in Waiting(Ticketed(g, a.weight));
      TurnIsTheEarliest(Ticketed(g, a.weight), slots + [Of(g.arrived)], g.arrived);
    } else {
      assert t in Waiting(g);
      TurnIsTheEarliest(g, slots, a.id);
    }
  }

  lemma StepNotifies(g: Gate, slots: seq<Slot>, a: Action)
    requires Orderly(g, slots) && Accounted(g) && Enabled(g, a) && HoldersFirst(Step(g, a))
    ensures EarlierNotifies(Step(g, a))
  {
    var g' := Step(g, a);
    IdsBelow(g, slots);
    forall t | t in g'.requests && g'.requests[t].Sleeping? && MayStart(g', g'.requests[t])
      ensures Notified(g', t)
    {
      SleeperNotified(g, slots, a, t);
    }
  }

  lemma SleeperNotified(g: Gate, slots: seq<Slot>, a: Action, t: Id)
    requires Orderly(g, slots) && Accounted(g) && Enabled(g, a) && HoldersFirst(Step(g, a))
    requires forall u :: u in g.requests ==> u < g.arrived
    requires var g' := Step(g, a);
             t in g'.requests && g'.requests[t].Sleeping? && MayStart(g', g'.requests[t])
    ensures Notified(Step(g, a), t)
  {
    hide Lined, Names, Accounted;
    var g' := Step(g, a);
    if a.Notify? {
      assert false;
    } else {
      var actor := if a.Arrive? then g.arrived else a.id;
      assert t != actor && t in g.requests && g.requests[t] == g'.requests[t];
      if MayStart(g, g.requests[t]) {
        NotifiedStays(g, a, t);
      } else if a.Release? || g'.requests[actor].Admitted? {
        assert actor < t && g'.requests[actor].WillNotify();
      } else {
        assert g'.requests[actor].Refused?;
        RefusedIsEarliest(g, slots, a, t);
      }
    }
  }

  lemma StepOrderly(g: Gate, slots: seq<Slot>, a: Action) returns (slots': seq<Slot>)
    requires Orderly(g, slots) && Accounted(g) && Enabled(g, a)
    ensures Orderly(Step(g, a), slots')
  {
    hide Lined, Names, Accounted, Step, HoldersFirst, EarlierNotifies, AdmittedBy;
    slots' := StepIncreases(g, slots, a);
    StepHoldersFirst(g, slots, a, slots');
    StepNotifies(g, slots, a);
    PartsIncrease(AdmittedBy(g, a), Names(slots'));
  }

  lemma {:induction false} RunOrderly(g: Gate, slots: seq<Slot>, actions: seq<Action>) returns (slots': seq<Slot>)
    requires Orderly(g, slots) && Accounted(g) && Possible(g, actions)
    ensures Orderly(After(g, actions), slots') && Accounted(After(g, actions))
    decreases |actions|
  {
    hide Orderly, Accounted, Step;
    slots' := slots;
    if actions != [] {
      var slots1 := StepOrderly(g, slots, actions[0]);
      OrderlyIds(g, slots);
      StepAccounted(g, actions[0]);
      slots' := RunOrderly(Step(g, actions[0]), slots1, actions[1..]);
    }
  }

  lemma OrderlyIds(g: Gate, slots: seq<Slot>)
    requires Orderly(g, slots)
    ensures forall t :: t in g.requests ==> t < g.arrived
  {
    IdsBelow(g, slots);
  }

  lemma OrderlyInitially(budget: usize)
    ensures Orderly(Init(budget), []) && Accounted(Init(budget))
  {
    InvariantInitially(budget);
    NoNames();
  }

  // ----- someone before a waiting request can always move -----

  /** A step of a request no later than `t`, other than being woken. */
  predicate Own(a: Action, t: Id) { !a.Arrive? && !a.Wake? && a.id <= t }

  ghost predicate CanMove(g: Gate, t: Id) {
    exists a :: Enabled(g, a) && Own(a, t) && (a.Recheck? ==> a.patient)
  }

  /** When no permit is held, the first in line is awake or has a notification coming. */
  lemma HeadIsCalled(g: Gate, slots: seq<Slot>, t: Id)
    requires Orderly(g, slots) && t in Waiting(g) && g.queue.running == 0
    ensures exists head :: head <= t && head in Waiting(g) && (g.requests[head].Woken? || Notified(g, head))
  {
    var i :| 0 <= i < |slots| && slots[i] == Of(t);
    var head := slots[0].id;
    assert head in Waiting(g) && g.requests[head].ticket == g.queue.serving;
    TurnIsTheEarliest(g, slots, head);
    assert g.requests[head].Woken? || MayStart(g, g.requests[head]);
  }

  /** While a request waits, it or one before it can take a step that is no wakeup and no timeout. */
  lemma SomeoneMoves(g: Gate, slots: seq<Slot>, t: Id)
    requires Orderly(g, slots) && Accounted(g) && t in Waiting(g)
    ensures CanMove(g, t)
  {
    if forall u :: u in g.requests && u <= t ==> g.requests[u].Sleeping? {
      NobodyHolds(g, t);
      HeadIsCalled(g, slots, t);
      assert false;
    } else {
      var u :| u in g.requests && u <= t && !g.requests[u].Sleeping?;
      AwakeMoves(g, u);
    }
  }

  lemma AwakeMoves(g: Gate, u: Id)
    requires u in g.requests && !g.requests[u].Sleeping?
    ensures CanMove(g, u)
  {
    assert g.requests[u].Woken? ==> Enabled(g, Recheck(u, true));
    assert g.requests[u].Running? ==> Enabled(g, Release(u));
    assert g.requests[u].WillNotify() ==> Enabled(g, Notify(u));
  }

  lemma NobodyHolds(g: Gate, t: Id)
    requires HoldersFirst(g) && Accounted(g) && t in Waiting(g)
    requires forall u :: u in g.requests && u <= t ==> g.requests[u].Sleeping?
    ensures g.queue.running == 0
  {
    assert Weights(g.requests) == map[];
  }

  // ----- how many steps that takes -----

  ghost function UpTo(requests: map<Id, Phase>, t: Id): map<Id, Phase> {
    map u | u in requests && u <= t :: requests[u]
  }

  /** How many steps of a run are of requests no later than `t`, wakeups aside. */
  ghost function OwnSteps(actions: seq<Action>, t: Id): nat {
    if actions == [] then 0 else (if Own(actions[0], t) then 1 else 0) + OwnSteps(actions[1..], t)
  }

  ghost function Sleepers(requests: map<Id, Phase>): set<Id> {
    set u | u in requests && requests[u].Sleeping?
  }

  /** The wakeups a step gives to requests no later than `t` from outside: a spurious one or a
      timeout, or the notification of a later request. */
  ghost function WakeupsBy(g: Gate, a: Action, t: Id): nat {
    if a.Wake? && a.id <= t then 1
    else if a.Notify? && a.id > t then |Sleepers(UpTo(g.requests, t))|
    else 0
  }

  ghost function Wakeups(g: Gate, actions: seq<Action>, t: Id): nat
    requires Possible(g, actions)
    decreases |actions|
  {
    if actions == [] then 0 else WakeupsBy(g, actions[0], t) + Wakeups(Step(g, actions[0]), actions[1..], t)
  }

  ghost function RankUpTo(n: nat, g: Gate, t: Id): nat { Sum(Ranks(n, UpTo(g.requests, t))) }

  /** What a step of a request no later than `t` does to those no later than `t` does not depend on
      the later ones. */
  lemma OwnStepIsLocal(g: Gate, a: Action, t: Id)
    requires Enabled(g, a) && !a.Arrive? && a.id <= t
    ensures var part := g.(requests := UpTo(g.requests, t));
            Enabled(part, a) && Step(part, a).requests == UpTo(Step(g, a).requests, t)
  {}

  lemma OtherStepIsFar(g: Gate, a: Action, t: Id)
    requires Enabled(g, a) && (if a.Arrive? then g.arrived > t else a.id > t)
    ensures UpTo(Step(g, a).requests, t) ==
            if a.Notify? then AllRoused(UpTo(g.requests, t)) else UpTo(g.requests, t)
  {}

  lemma RousedRanks(n: nat, requests: map<Id, Phase>)
    ensures Sum(Ranks(n, AllRoused(requests))) <= Sum(Ranks(n, requests)) + |Sleepers(requests)|
  {
    SumRaisedIn(Ranks(n, requests), Ranks(n, AllRoused(requests)), Sleepers(requests));
  }

  lemma StepRankUpTo(n: nat, g: Gate, a: Action, t: Id)
    requires Enabled(g, a) && t < g.arrived && |UpTo(g.requests, t)| <= n
    ensures |UpTo(Step(g, a).requests, t)| <= n
    ensures (if Own(a, t) then 1 else 0) + RankUpTo(n, Step(g, a), t) <= RankUpTo(n, g, t) + WakeupsBy(g, a, t)
  {
    hide Ranks, Step, UpTo, Sleepers, AllRoused;
    if !a.Arrive? && a.id <= t {
      OwnStepIsLocal(g, a, t);
      StepRank(n, g.(requests := UpTo(g.requests, t)), a);
    } else {
      OtherStepIsFar(g, a, t);
      if a.Notify? {
        RousedRanks(n, UpTo(g.requests, t));
        RousedKeys(UpTo(g.requests, t));
      }
    }
  }

  lemma RousedKeys(requests: map<Id, Phase>)
    ensures |AllRoused(requests)| == |requests|
  {
    assert AllRoused(requests).Keys == requests.Keys;
  }

  lemma {:induction false} RunRankUpTo(n: nat, g: Gate, actions: seq<Action>, t: Id)
    requires Possible(g, actions) && t < g.arrived && |UpTo(g.requests, t)| <= n
    ensures OwnSteps(actions, t) + RankUpTo(n, After(g, actions), t) <= RankUpTo(n, g, t) + Wakeups(g, actions, t)
    decreases |actions|
  {
    hide RankUpTo, UpTo, Step, WakeupsBy, Own;
    if actions != [] {
      StepArrived(g, actions[0]);
      StepRankUpTo(n, g, actions[0], t);
      RunRankUpTo(n, Step(g, actions[0]), actions[1..], t);
    }
  }

  lemma RankIsSmall(n: nat, g: Gate, t: Id)
    requires |UpTo(g.requests, t)| == n
    ensures RankUpTo(n, g, t) <= n * (2 * n + 5)
  {
    var ranks := Ranks(n, UpTo(g.requests, t));
    assert ranks.Keys == UpTo(g.requests, t).Keys;
    SumAtMost(ranks, 2 * n + 5);
  }

  /** However many requests arrive, and whatever they do: with `n` requests no later than `t` at the
      gate, these take at most `n * (2 * n + 5)` steps, one more for each wakeup they get from
      outside, and as long as `t` waits they have one to take. */
  lemma WaitIsBounded(budget: usize, before: seq<Action>, during: seq<Action>, t: Id)
    requires Possible(Init(budget), before) && Possible(After(Init(budget), before), during)
    requires t < After(Init(budget), before).arrived
    ensures var g := After(Init(budget), before);
            var n := |UpTo(g.requests, t)|;
            && OwnSteps(during, t) <= n * (2 * n + 5) + Wakeups(g, during, t)
            && (t in Waiting(After(g, during)) ==> CanMove(After(g, during), t))
  {
    hide Possible, After, Orderly, Accounted, RankUpTo, UpTo, CanMove;
    var g := After(Init(budget), before);
    var n := |UpTo(g.requests, t)|;
    RunRankUpTo(n, g, during, t);
    RankIsSmall(n, g, t);
    OrderlyInitially(budget);
    var slots := RunOrderly(Init(budget), [], before);
    var slots' := RunOrderly(g, slots, during);
    if t in Waiting(After(g, during)) {
      SomeoneMoves(After(g, during), slots', t);
    }
  }

  /** A waiting request stops waiting only by being admitted or by giving up. */
  lemma {:induction false} PatientLeavesAdmitted(g: Gate, actions: seq<Action>, t: Id)
    requires Possible(g, actions) && t in Waiting(g) && t < g.arrived && t !in Waiting(After(g, actions))
    requires Recheck(t, false) !in actions
    ensures t in Admissions(g, actions)
    decreases |actions|
  {
    if t in Waiting(Step(g, actions[0])) {
      PatientLeavesAdmitted(Step(g, actions[0]), actions[1..], t);
    } else {
      assert actions[0] == Recheck(t, true);
      assert AdmittedBy(g, actions[0]) == [t];
    }
  }

  /** A patient request is admitted while others keep arriving: by the time that it and those before
      it have no step left to take, of which they have boundedly many, it has been. */
  lemma PatientIsAdmitted(budget: usize, before: seq<Action>, during: seq<Action>, t: Id)
    requires Possible(Init(budget), before) && Possible(After(Init(budget), before), during)
    requires t in Waiting(After(Init(budget), before)) && Recheck(t, false) !in during
    requires !CanMove(After(After(Init(budget), before), during), t)
    ensures t in Admissions(After(Init(budget), before), during)
  {
    hide Possible, After, Orderly, CanMove;
    var g := After(Init(budget), before);
    OrderlyInitially(budget);
    var slots := RunOrderly(Init(budget), [], before);
    OrderlyIds(g, slots);
    WaitIsBounded(budget, before, during, t);
    PatientLeavesAdmitted(g, during, t);
  }

  // ----- a full line -----

  lemma {:induction false} AppendStep(g: Gate, actions: seq<Action>, a: Action)
    requires Possible(g, actions) && Enabled(After(g, actions), a)
    ensures Possible(g, actions + [a]) && After(g, actions + [a]) == Step(After(g, actions), a)
    decreases |actions|
  {
    if actions == [] {
      assert ([a])[1..] == [];
    } else {
      AppendStep(Step(g, actions[0]), actions[1..], a);
      assert (actions + [a])[1..] == actions[1..] + [a];
    }
  }

  /** `n` requests wait behind one that is heavier than the budget. */
  ghost predicate Crowded(g: Gate, n: nat) {
    && g.queue.running == 1 && g.queue.inFlight == g.budget + 1 && g.queue.abandoned == {}
    && |Waiting(g)| == n
    && forall t :: t in g.requests ==> t < g.arrived
  }

  lemma CrowdGrows(g: Gate, n: nat)
    requires Crowded(g, n) && n < U64_SIZE
    ensures Room(g) && Crowded(Step(g, Arrive(1, true)), n + 1)
    ensures Step(g, Arrive(1, true)).budget == g.budget
  {
    assert Waiting(Step(g, Arrive(1, true))) == Waiting(g) + {g.arrived};
  }

  lemma CrowdBegins(budget: usize)
    requires budget < USIZE_MAX
    ensures Room(Init(budget)) && Crowded(Step(Init(budget), Arrive(budget + 1, true)), 0)
  {
    assert Waiting(Init(budget)) == {};
    assert Waiting(Step(Init(budget), Arrive(budget + 1, true))) == {};
  }

  lemma {:induction false} Crowd(budget: usize, n: nat) returns (actions: seq<Action>)
    requires budget < USIZE_MAX && n <= U64_SIZE
    ensures Possible(Init(budget), actions) && Crowded(After(Init(budget), actions), n)
  {
    hide Crowded;
    var a := if n == 0 then Arrive(budget + 1, true) else Arrive(1, true);
    if n == 0 {
      CrowdBegins(budget);
      actions := [];
    } else {
      actions := Crowd(budget, n - 1);
      CrowdGrows(After(Init(budget), actions), n - 1);
    }
    AppendStep(Init(budget), actions, a);
    actions := actions + [a];
  }

  /** Nobody waits and nobody gave up. */
  ghost predicate NoLine(g: Gate) {
    && g.budget == USIZE_MAX && Waiting(g) == {} && g.queue.abandoned == {}
    && g.queue.serving == g.queue.next && forall t :: t in g.requests ==> t < g.arrived
  }

  lemma StepNoLine(g: Gate, a: Action)
    requires NoLine(g) && Enabled(g, a)
    ensures NoLine(Step(g, a))
  {
    forall t | t in g.requests ensures !g.requests[t].Waits() {
      assert t !in Waiting(g);
    }
    if a.Arrive? {
      assert MayStart(Ticketed(g, a.weight), Woken(g.queue.next, a.weight));
      NothingToSkip(WrappingSucc(g.queue.serving));
    }
    assert Waiting(Step(g, a)) == {};
  }

  lemma NothingToSkip(ticket: u64)
    ensures TicketQueue.Skip(ticket, {}) == (ticket, {})
  {}

  lemma {:induction false} RunNoLine(g: Gate, actions: seq<Action>)
    requires NoLine(g) && Possible(g, actions)
    ensures NoLine(After(g, actions))
    decreases |actions|
  {
    hide NoLine;
    if actions != [] {
      StepNoLine(g, actions[0]);
      RunNoLine(Step(g, actions[0]), actions[1..]);
    }
  }

  /** All 2^64 tickets can be outstanding at once, so that the next one would repeat one, exactly
      when the budget is below the machine's largest number; at that number nobody ever waits. */
  lemma LineFillsExactlyBelowTheLargest(budget: usize)
    ensures budget < USIZE_MAX <==>
              exists actions :: Possible(Init(budget), actions) && !Room(After(Init(budget), actions))
  {
    hide Possible, After;
    if budget < USIZE_MAX {
      var actions := Crowd(budget, U64_SIZE);
      assert !Room(After(Init(budget), actions));
    } else {
      forall actions | Possible(Init(budget), actions) ensures Room(After(Init(budget), actions)) {
        assert Waiting(Init(budget)) == {};
        RunNoLine(Init(budget), actions);
      }
    }
  }
}
