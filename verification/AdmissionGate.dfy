/** The admission protocol as interleaved atomic steps. Each step is one critical section of the
    queue's lock, or one wakeup of the condition variable; a notification is sent by a separate
    step, after the lock was dropped. */
module AdmissionGate {
  import opened Machine
  import TicketQueue

  /** Requests are named by their arrival order. */
  type Id = nat

  datatype Phase =
    | Sleeping(ticket: u64, weight: usize) // in the condition variable's wait
    | Woken(ticket: u64, weight: usize)    // at the head of the waiting loop
    | Admitted(weight: usize)              // admitted, its notification still to send
    | Running(weight: usize)               // its permit is held by the caller
    | Returned                             // permit dropped, notification still to send
    | Refused                              // gave its place up, notification still to send
  {
    predicate Waits() { Sleeping? || Woken? }
    predicate Holds() { Admitted? || Running? }
    predicate WillNotify() { Admitted? || Returned? || Refused? }
  }

  datatype Gate = Gate(budget: usize, queue: TicketQueue.View, arrived: nat, requests: map<Id, Phase>)

  datatype Action =
    | Arrive(weight: usize, patient: bool)  // take a ticket and check it
    | Recheck(id: Id, patient: bool)        // a woken request checks again
    | Wake(id: Id)                          // a spurious wakeup, or the wait timed out
    | Notify(id: Id)                        // `notify_all`
    | Release(id: Id)                       // the permit is dropped

  function Init(budget: usize): Gate { Gate(budget, TicketQueue.EMPTY, 0, map[]) }

  function Waiting(g: Gate): set<Id> {
    set t | t in g.requests && g.requests[t].Waits()
  }

  /** A ticket can be taken without repeating one that is still outstanding. */
  predicate Room(g: Gate) {
    |Waiting(g)| + |g.queue.abandoned| < U64_SIZE
  }

  predicate Enabled(g: Gate, a: Action) {
    match a
    case Arrive(_, _) => Room(g)
    case Recheck(t, _) => t in g.requests && g.requests[t].Woken?
    case Wake(t) => t in g.requests && g.requests[t].Sleeping?
    case Notify(t) => t in g.requests && g.requests[t].WillNotify()
    case Release(t) => t in g.requests && g.requests[t].Running?
  }

  /** The new request holds its ticket and stands at the head of the waiting loop. */
  function Ticketed(g: Gate, weight: usize): Gate {
    g.(queue := TicketQueue.Take(g.queue),
       arrived := g.arrived + 1,
       requests := g.requests[g.arrived := Woken(g.queue.next, weight)])
  }

  predicate MayStart(g: Gate, p: Phase)
    requires p.Waits()
  {
    g.queue.serving == p.ticket && TicketQueue.Fits(g.budget, g.queue, p.weight)
  }

  function Check(g: Gate, t: Id, patient: bool): Gate
    requires t in g.requests && g.requests[t].Woken?
  {
    var Woken(ticket, weight) := g.requests[t];
    if MayStart(g, g.requests[t]) then
      g.(queue := TicketQueue.Admit(g.queue, weight), requests := g.requests[t := Admitted(weight)])
    else if !patient then
      g.(queue := TicketQueue.GiveUp(g.queue, ticket), requests := g.requests[t := Refused])
    else
      g.(requests := g.requests[t := Sleeping(ticket, weight)])
  }

  function Roused(p: Phase): Phase {
    if p.Sleeping? then Woken(p.ticket, p.weight) else p
  }

  function AllRoused(requests: map<Id, Phase>): map<Id, Phase> {
    map u | u in requests :: Roused(requests[u])
  }

  /** Everybody asleep wakes; the notifier goes on to hold its permit, or is done. */
  function NotifyAll(g: Gate, t: Id): Gate
    requires t in g.requests && g.requests[t].WillNotify()
  {
    var roused := AllRoused(g.requests);
    if g.requests[t].Admitted? then g.(requests := roused[t := Running(g.requests[t].weight)])
    else g.(requests := roused - {t})
  }

  function Step(g: Gate, a: Action): Gate
    requires Enabled(g, a)
  {
    match a
    case Arrive(weight, patient) => Check(Ticketed(g, weight), g.arrived, patient)
    case Recheck(t, patient) => Check(g, t, patient)
    case Wake(t) => g.(requests := g.requests[t := Roused(g.requests[t])])
    case Notify(t) => NotifyAll(g, t)
    case Release(t) =>
      g.(queue := TicketQueue.Release(g.queue, g.requests[t].weight), requests := g.requests[t := Returned])
  }

  /** Each action can happen after those before it. */
  predicate Possible(g: Gate, actions: seq<Action>)
    decreases |actions|
  {
    actions == [] || (Enabled(g, actions[0]) && Possible(Step(g, actions[0]), actions[1..]))
  }

  /** The gate after a whole run. */
  function After(g: Gate, actions: seq<Action>): Gate
    requires Possible(g, actions)
    decreases |actions|
  {
    if actions == [] then g else After(Step(g, actions[0]), actions[1..])
  }
}
