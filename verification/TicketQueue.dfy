/** The ticket queue behind the admission lock: its state as a value, the critical sections as
    functions on that value, and the object whose methods run them in place. */
module TicketQueue {
  import opened Machine

  /** What the admission lock protects. */
  datatype View = View(next: u64, serving: u64, abandoned: set<u64>, inFlight: usize, running: nat)

  const EMPTY := View(0, 0, {}, 0, 0)

  /** The first ticket from `serving` on that is not abandoned, and the abandoned tickets left. */
  function Skip(serving: u64, abandoned: set<u64>): (u64, set<u64>)
    decreases |abandoned|
  {
    if serving in abandoned then Skip(WrappingSucc(serving), abandoned - {serving})
    else (serving, abandoned)
  }

  function Advance(q: View): View {
    var (serving, abandoned) := Skip(WrappingSucc(q.serving), q.abandoned);
    q.(serving := serving, abandoned := abandoned)
  }

  function Take(q: View): View { q.(next := WrappingSucc(q.next)) }

  predicate Fits(budget: usize, q: View, weight: usize) {
    q.running == 0 || SaturatingAdd(q.inFlight, weight) <= budget
  }

  function Admit(q: View, weight: usize): View {
    var a := Advance(q);
    a.(inFlight := SaturatingAdd(a.inFlight, weight), running := a.running + 1)
  }

  function GiveUp(q: View, ticket: u64): View {
    if q.serving == ticket then Advance(q.(abandoned := q.abandoned - {ticket}))
    else q.(abandoned := q.abandoned + {ticket})
  }

  function Release(q: View, weight: usize): View {
    q.(inFlight := SaturatingSub(q.inFlight, weight), running := Max(q.running - 1, 0))
  }

  /** The queue as the program holds it: fields updated in place by whoever has the lock. */
  class Queue {
    var next: u64
    var serving: u64
    var abandoned: set<u64>
    var inFlight: usize
    var running: nat

    ghost function Value(): View
      reads this
    {
      View(next, serving, abandoned, inFlight, running)
    }

    constructor ()
      ensures Value() == EMPTY
    {
      next, serving, abandoned, inFlight, running := 0, 0, {}, 0, 0;
    }

    method AdvanceTurn()
      modifies this`serving, this`abandoned
      ensures Value() == Advance(old(Value()))
    {
      serving := WrappingSucc(serving);
      while serving in abandoned
        invariant Skip(serving, abandoned) == Skip(WrappingSucc(old(serving)), old(abandoned))
        decreases |abandoned|
      {
        abandoned := abandoned - {serving};
        serving := WrappingSucc(serving);
      }
    }

    method TakeTicket() returns (ticket: u64)
      modifies this`next
      ensures ticket == old(next) && Value() == Take(old(Value()))
    {
      ticket := next;
      next := WrappingSucc(next);
    }

    /** One pass of the waiting loop: admit, give the place up when out of patience, or stay. */
    method Check(budget: usize, ticket: u64, weight: usize, patient: bool)
      returns (admitted: bool, refused: bool)
      modifies this
      ensures admitted <==> old(serving) == ticket && Fits(budget, old(Value()), weight)
      ensures refused <==> !admitted && !patient
      ensures Value() == if admitted then Admit(old(Value()), weight)
                         else if refused then GiveUp(old(Value()), ticket)
                         else old(Value())
    {
      admitted, refused := false, false;
      if serving != ticket || !(running == 0 || SaturatingAdd(inFlight, weight) <= budget) {
        if !patient {
          refused := true;
          ghost var before := Value();
          abandoned := abandoned + {ticket};
          if serving == ticket {
            abandoned := abandoned - {ticket};
            assert Value() == before.(abandoned := before.abandoned - {ticket});
            AdvanceTurn();
          }
        }
      } else {
        admitted := true;
        AdvanceTurn();
        inFlight := SaturatingAdd(inFlight, weight);
        running := running + 1;
      }
    }

    method ReleaseWeight(weight: usize)
      modifies this`inFlight, this`running
      ensures Value() == Release(old(Value()), weight)
    {
      inFlight := SaturatingSub(inFlight, weight);
      running := Max(running - 1, 0);
    }
  }
}
