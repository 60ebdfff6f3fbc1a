/** The lock-free cap on request bytes being read: reservations grow with a load and a
    compare-and-swap loop, record the peak afterwards, and give their bytes back when dropped. */
module ReadBudget {
  import opened Machine
  import opened Sums

  type Id = nat

  /** One reservation, and where its owner is inside `grow`. */
  datatype Reservation =
    | Idle(held: usize)
    | Trying(held: usize, bytes: usize, seen: usize)     // about to test and swap against `seen`
    | Recording(held: usize, bytes: usize, total: usize) // swapped in `total`, peak not yet raised

  datatype Budget = Budget(limit: usize, held: usize, peak: usize, reservations: map<Id, Reservation>)

  datatype Action =
    | Reserve(id: Id)
    | Load(id: Id, bytes: usize)
    | Swap(id: Id, spurious: bool)  // one pass of the loop; a weak exchange may fail for no reason
    | Record(id: Id)                // `fetch_max`, then the reservation counts its bytes
    | Drop(id: Id)

  function New(limit: usize): Budget { Budget(limit, 0, 0, map[]) }

  predicate Enabled(b: Budget, a: Action) {
    if a.Reserve? then a.id !in b.reservations
    else
      && a.id in b.reservations
      && match a
         case Load(id, _) => b.reservations[id].Idle?
         case Swap(id, _) => b.reservations[id].Trying?
         case Record(id) => b.reservations[id].Recording?
         case Drop(id) => b.reservations[id].Idle?
  }

  function With(b: Budget, id: Id, r: Reservation): Budget {
    b.(reservations := b.reservations[id := r])
  }

  function SwapOnce(b: Budget, id: Id, spurious: bool): Budget
    requires id in b.reservations && b.reservations[id].Trying?
  {
    var Trying(held, bytes, seen) := b.reservations[id];
    if seen + bytes > USIZE_MAX || seen + bytes > b.limit then With(b, id, Idle(held))
    else if b.held == seen && !spurious then
      With(b, id, Recording(held, bytes, seen + bytes)).(held := seen + bytes)
    else With(b, id, Trying(held, bytes, b.held))
  }

  function Step(b: Budget, a: Action): Budget
    requires Enabled(b, a)
  {
    match a
    case Reserve(id) => With(b, id, Idle(0))
    case Load(id, bytes) => With(b, id, Trying(b.reservations[id].held, bytes, b.held))
    case Swap(id, spurious) => SwapOnce(b, id, spurious)
    case Record(id) =>
      var Recording(held, bytes, total) := b.reservations[id];
      With(b, id, Idle((held + bytes) % U64_SIZE)).(peak := Max(b.peak, total))
    case Drop(id) =>
      // the atomic subtraction wraps
      b.(held := (b.held - b.reservations[id].held) % U64_SIZE, reservations := b.reservations - {id})
  }

  predicate Possible(b: Budget, actions: seq<Action>)
    decreases |actions|
  {
    actions == [] || (Enabled(b, actions[0]) && Possible(Step(b, actions[0]), actions[1..]))
  }

  function After(b: Budget, actions: seq<Action>): Budget
    requires Possible(b, actions)
    decreases |actions|
  {
    if actions == [] then b else After(Step(b, actions[0]), actions[1..])
  }

  /** The bytes a reservation has taken from the budget. */
  function Taken(r: Reservation): nat { if r.Recording? then r.held + r.bytes else r.held }

  ghost function Claims(reservations: map<Id, Reservation>): map<Id, nat> {
    map id | id in reservations :: Taken(reservations[id])
  }

  ghost predicate Balanced(b: Budget) {
    b.held == Sum(Claims(b.reservations)) && b.held <= b.limit
  }

  lemma ClaimPut(reservations: map<Id, Reservation>, id: Id, r: Reservation)
    requires id in reservations
    ensures Sum(Claims(reservations[id := r])) + Taken(reservations[id]) ==
            Sum(Claims(reservations)) + Taken(r)
    ensures Taken(reservations[id]) <= Sum(Claims(reservations))
  {
    assert Claims(reservations[id := r]) == Claims(reservations)[id := Taken(r)];
    SumPut(Claims(reservations), id, Taken(r));
    SumPick(Claims(reservations), id);
  }

  lemma ClaimNothing(reservations: map<Id, Reservation>, id: Id)
    requires id !in reservations
    ensures Sum(Claims(reservations[id := Idle(0)])) == Sum(Claims(reservations))
  {
    SumNew(Claims(reservations), id, 0);
    assert Claims(reservations[id := Idle(0)]) == Claims(reservations)[id := 0];
  }

  lemma ClaimDrop(reservations: map<Id, Reservation>, id: Id)
    requires id in reservations
    ensures Sum(Claims(reservations)) == Taken(reservations[id]) + Sum(Claims(reservations - {id}))
  {
    SumPick(Claims(reservations), id);
    assert Claims(reservations - {id}) == Claims(reservations) - {id};
  }

  lemma StepBalanced(b: Budget, a: Action)
    requires Balanced(b) && Enabled(b, a)
    ensures Balanced(Step(b, a))
  {
    hide Claims, Sum;
    match a
    case Reserve(id) =>
      ClaimNothing(b.reservations, id);
    case Drop(id) =>
      ClaimDrop(b.reservations, id);
    case _ =>
      MoveClaims(b, a);
  }

  /** A step inside `grow` moves the bytes held by as much as the reservation's claim. */
  lemma MoveClaims(b: Budget, a: Action)
    requires Balanced(b) && Enabled(b, a) && !a.Reserve? && !a.Drop?
    ensures Balanced(Step(b, a))
  {
    hide Claims, Sum;
    var r := Step(b, a).reservations[a.id];
    assert Step(b, a).reservations == b.reservations[a.id := r];
    ClaimPut(b.reservations, a.id, r);
    if a.Record? {
      ClaimFits(b, a.id);
    }
  }

  /** A reservation never claims more than the machine's largest number, so its own count, which
      wraps, never does. */
  lemma ClaimFits(b: Budget, id: Id)
    requires Balanced(b) && id in b.reservations
    ensures Taken(b.reservations[id]) <= b.held <= b.limit
  {
    ClaimDrop(b.reservations, id);
  }

  /** `h` is the larger of the peak and the totals still to be recorded. */
  ghost predicate Tracks(b: Budget, h: nat) {
    && b.peak <= h
    && (forall id :: id in b.reservations && b.reservations[id].Recording? ==> b.reservations[id].total <= h)
    && (b.peak == h ||
        exists id :: id in b.reservations && b.reservations[id].Recording? && b.reservations[id].total == h)
  }

  lemma StepTracks(b: Budget, a: Action, h: nat)
    requires Tracks(b, h) && Enabled(b, a) && Balanced(b) && b.held <= h
    ensures Tracks(Step(b, a), Max(h, Step(b, a).held))
  {
    hide Balanced;
    var b' := Step(b, a);
    if a.Drop? {
      ClaimFits(b, a.id);
    }
    var h' := Max(h, b'.held);
    if h' == h && b.peak != h {
      var id :| id in b.reservations && b.reservations[id].Recording? && b.reservations[id].total == h;
      assert id != a.id ==> id in b'.reservations && b'.reservations[id] == b.reservations[id];
    } else if h' != h {
      assert a.Swap? && b'.reservations[a.id].Recording? && b'.reservations[a.id].total == h';
    }
  }

  /** The most bytes held in any state of a run. */
  ghost function Highest(b: Budget, actions: seq<Action>): nat
    requires Possible(b, actions)
    decreases |actions|
  {
    if actions == [] then b.held else Max(b.held, Highest(Step(b, actions[0]), actions[1..]))
  }

  lemma StepLimit(b: Budget, a: Action)
    requires Enabled(b, a)
    ensures Step(b, a).limit == b.limit
  {}

  lemma {:induction false} RunKeeps(b: Budget, actions: seq<Action>, h: nat)
    requires Possible(b, actions) && Balanced(b) && Tracks(b, h) && b.held <= h
    ensures Balanced(After(b, actions)) && After(b, actions).limit == b.limit
    ensures Tracks(After(b, actions), Max(h, Highest(b, actions)))
    decreases |actions|
  {
    hide Balanced, Tracks, Step;
    if actions != [] {
      var b' := Step(b, actions[0]);
      StepBalanced(b, actions[0]);
      StepLimit(b, actions[0]);
      StepTracks(b, actions[0], h);
      RunKeeps(b', actions[1..], Max(h, b'.held));
    }
  }

  // ----- the bytes of a ledger kept outside -----

  /** What was asked for last under each id, and what is claimed under each live one. */
  datatype Ledger = Ledger(asked: map<Id, usize>, claims: map<Id, nat>)

  /** The exchange of this step succeeds. */
  predicate Grants(b: Budget, a: Action)
    requires Enabled(b, a)
  {
    a.Swap? && Step(b, a).reservations[a.id].Recording?
  }

  /** A reservation opens with nothing, a granted growth adds what was asked for, a drop closes it. */
  ghost function Booked(l: Ledger, b: Budget, a: Action): Ledger
    requires Enabled(b, a)
  {
    match a
    case Reserve(id) => l.(claims := l.claims[id := 0])
    case Load(id, bytes) => l.(asked := l.asked[id := bytes])
    case Swap(id, _) =>
      if Grants(b, a) && id in l.asked && id in l.claims
      then l.(claims := l.claims[id := l.claims[id] + l.asked[id]]) else l
    case Record(_) => l
    case Drop(id) => l.(claims := l.claims - {id})
  }

  ghost function LedgerAfter(l: Ledger, b: Budget, actions: seq<Action>): Ledger
    requires Possible(b, actions)
    decreases |actions|
  {
    if actions == [] then l else LedgerAfter(Booked(l, b, actions[0]), Step(b, actions[0]), actions[1..])
  }

  /** The reservations are what the ledger says. */
  ghost predicate Books(l: Ledger, b: Budget) {
    && l.claims == Claims(b.reservations)
    && forall id :: id in b.reservations && b.reservations[id].Trying? ==>
         id in l.asked && l.asked[id] == b.reservations[id].bytes
  }

  lemma StepBooks(l: Ledger, b: Budget, a: Action)
    requires Books(l, b) && Balanced(b) && Enabled(b, a)
    ensures Books(Booked(l, b, a), Step(b, a))
  {
    hide Balanced, Claims;
    if a.Record? {
      ClaimFits(b, a.id);
    }
    if a.Drop? {
      ClaimsWithout(b.reservations, a.id);
    } else {
      var r := Step(b, a).reservations[a.id];
      assert Step(b, a).reservations == b.reservations[a.id := r];
      ClaimsWith(b.reservations, a.id, r);
    }
  }

  lemma ClaimsWith(reservations: map<Id, Reservation>, id: Id, r: Reservation)
    ensures Claims(reservations[id := r]) == Claims(reservations)[id := Taken(r)]
    ensures id in reservations ==> id in Claims(reservations) && Claims(reservations)[id] == Taken(reservations[id])
  {}

  lemma ClaimsWithout(reservations: map<Id, Reservation>, id: Id)
    ensures Claims(reservations - {id}) == Claims(reservations) - {id}
  {}

  lemma {:induction false} RunBooks(l: Ledger, b: Budget, actions: seq<Action>)
    requires Books(l, b) && Balanced(b) && Possible(b, actions)
    ensures Books(LedgerAfter(l, b, actions), After(b, actions))
    decreases |actions|
  {
    hide Books, Balanced, Step, Booked;
    if actions != [] {
      StepBooks(l, b, actions[0]);
      StepBalanced(b, actions[0]);
      RunBooks(Booked(l, b, actions[0]), Step(b, actions[0]), actions[1..]);
    }
  }

  /** The ledger's claims at the end of a run. */
  ghost function Claimed(limit: usize, actions: seq<Action>): map<Id, nat>
    requires Possible(New(limit), actions)
  {
    LedgerAfter(Ledger(map[], map[]), New(limit), actions).claims
  }

  /** The ids reserved and not dropped since, from those live before. */
  ghost function Live(before: set<Id>, actions: seq<Action>): set<Id>
    decreases |actions|
  {
    if actions == [] then before else Live(LiveBy(before, actions[0]), actions[1..])
  }

  ghost function LiveBy(before: set<Id>, a: Action): set<Id> {
    if a.Reserve? then before + {a.id} else if a.Drop? then before - {a.id} else before
  }

  lemma {:induction false} LedgerIsLive(l: Ledger, b: Budget, actions: seq<Action>)
    requires Possible(b, actions)
    ensures LedgerAfter(l, b, actions).claims.Keys == Live(l.claims.Keys, actions)
    decreases |actions|
  {
    hide Step;
    if actions != [] {
      LedgerIsLive(Booked(l, b, actions[0]), Step(b, actions[0]), actions[1..]);
      assert Booked(l, b, actions[0]).claims.Keys == LiveBy(l.claims.Keys, actions[0]);
    }
  }

  /** In every interleaving the bytes held are exactly those granted to the reservations that were
      not dropped since, and within the limit; the live reservations are those, and nothing is held
      once all are dropped. */
  lemma HeldIsTheReservations(limit: usize, actions: seq<Action>)
    requires Possible(New(limit), actions)
    ensures var b, claimed := After(New(limit), actions), Claimed(limit, actions);
            && b.held == Sum(claimed) && b.held <= limit
            && claimed == Claims(b.reservations)
            && claimed.Keys == b.reservations.Keys == Live({}, actions)
            && (Live({}, actions) == {} ==> b.held == 0)
  {
    hide After, Possible, LedgerAfter, Live;
    StartsBalanced(limit, actions);
    var empty := Ledger(map[], map[]);
    RunBooks(empty, New(limit), actions);
    LedgerIsLive(empty, New(limit), actions);
    assert empty.claims.Keys == {};
    assert Claimed(limit, actions).Keys == {} ==> Claimed(limit, actions) == map[];
  }

  /** A new reservation holds nothing and disturbs nothing. */
  lemma ReserveTakesNothing(limit: usize, actions: seq<Action>, id: Id)
    requires Possible(New(limit), actions) && id !in Live({}, actions)
    ensures var b := After(New(limit), actions);
            Enabled(b, Reserve(id)) && Step(b, Reserve(id)) == b.(reservations := b.reservations[id := Idle(0)])
  {
    hide After, Possible, Live;
    HeldIsTheReservations(limit, actions);
  }

  /** A drop returns its bytes: the reservation is gone, the others are as they were, and what is
      held is what these claim. */
  lemma DropReturns(limit: usize, actions: seq<Action>, id: Id)
    requires Possible(New(limit), actions)
    requires var b := After(New(limit), actions); id in b.reservations && b.reservations[id].Idle?
    ensures Enabled(After(New(limit), actions), Drop(id))
    ensures var b := After(New(limit), actions);
            var dropped := Step(b, Drop(id));
            && dropped.reservations == b.reservations - {id}
            && dropped.held == Sum(Claims(b.reservations - {id}))
            && dropped.held + b.reservations[id].held == b.held
            && dropped.peak == b.peak && dropped.limit == b.limit
  {
    hide After, Possible, Claims, Sum;
    StartsBalanced(limit, actions);
    var b := After(New(limit), actions);
    ClaimDrop(b.reservations, id);
  }

  /** In every interleaving the larger of the recorded peak and the totals not yet recorded is the
      most bytes ever held; so the peak is exact whenever no growth is half done. */
  lemma PeakIsTheHighest(limit: usize, actions: seq<Action>)
    requires Possible(New(limit), actions)
    ensures var b := After(New(limit), actions);
            && Tracks(b, Highest(New(limit), actions))
            && ((forall id :: id in b.reservations ==> !b.reservations[id].Recording?) ==>
                  b.peak == Highest(New(limit), actions))
  {
    RunKeeps(New(limit), actions, 0);
  }

  /** A growth that nobody disturbs takes its bytes exactly when they fit beside all that is held,
      up to the limit itself, and otherwise changes nothing. */
  lemma UndisturbedGrowthIsExact(limit: usize, actions: seq<Action>, id: Id, bytes: usize)
    requires Possible(New(limit), actions)
    requires var b := After(New(limit), actions); id in b.reservations && b.reservations[id].Idle?
    ensures Enabled(After(New(limit), actions), Load(id, bytes))
    ensures var b := After(New(limit), actions);
            var tried := Step(Step(b, Load(id, bytes)), Swap(id, false));
            var held := b.reservations[id].held;
            if Sum(Claims(b.reservations)) + bytes <= limit
            then tried.held == b.held + bytes &&
                 tried.reservations == b.reservations[id := Recording(held, bytes, tried.held)]
            else tried == b
  {
    RunKeeps(New(limit), actions, 0);
    var b := After(New(limit), actions);
    var tried := Step(Step(b, Load(id, bytes)), Swap(id, false));
    if Sum(Claims(b.reservations)) + bytes > limit {
      assert tried.reservations == b.reservations;
    }
  }

  /** A pass of the loop that neither takes the bytes nor gives up has seen what is held now, and the
      next one, if nobody disturbs it, takes them exactly when they fit. */
  lemma RetryIsExact(limit: usize, actions: seq<Action>, id: Id, spurious: bool)
    requires Possible(New(limit), actions) && Enabled(After(New(limit), actions), Swap(id, spurious))
    requires Enabled(Step(After(New(limit), actions), Swap(id, spurious)), Swap(id, false))
    ensures var b := After(New(limit), actions);
            var tried := Step(b, Swap(id, spurious));
            var answered := Step(tried, Swap(id, false));
            && tried == With(b, id, b.reservations[id].(seen := b.held))
            && (answered.reservations[id].Recording? <==>
                  Sum(Claims(b.reservations)) + b.reservations[id].bytes <= limit)
            && (answered.reservations[id].Idle? <==>
                  Sum(Claims(b.reservations)) + b.reservations[id].bytes > limit)
  {
    hide After, Possible;
    StartsBalanced(limit, actions);
  }

  /** Every reservation can end: from every reachable state its owner, undisturbed, gets through a
      growth half done and drops it. */
  lemma EveryReservationEnds(b: Budget, id: Id) returns (ending: seq<Action>)
    requires id in b.reservations
    ensures Possible(b, ending) && id !in After(b, ending).reservations
    ensures forall a :: a in ending ==> a.id == id
  {
    if b.reservations[id].Trying? {
      var more := AfterTry(Step(b, Swap(id, false)), id);
      ending := EndAfter(b, Swap(id, false), more);
    } else {
      ending := AfterGrowth(b, id);
    }
  }

  /** The rest of a growth after one pass of its loop: at most one more, and then the drop. */
  lemma AfterTry(b: Budget, id: Id) returns (ending: seq<Action>)
    requires id in b.reservations && (b.reservations[id].Trying? ==> b.reservations[id].seen == b.held)
    ensures Possible(b, ending) && id !in After(b, ending).reservations
    ensures forall a :: a in ending ==> a.id == id
  {
    if b.reservations[id].Trying? {
      var b' := Step(b, Swap(id, false));
      var more := AfterGrowth(b', id);
      ending := EndAfter(b, Swap(id, false), more);
    } else {
      ending := AfterGrowth(b, id);
    }
  }

  lemma AfterGrowth(b: Budget, id: Id) returns (ending: seq<Action>)
    requires id in b.reservations && !b.reservations[id].Trying?
    ensures Possible(b, ending) && id !in After(b, ending).reservations
    ensures forall a :: a in ending ==> a.id == id
  {
    if b.reservations[id].Idle? {
      ending := EndAfter(b, Drop(id), []);
    } else {
      var more := EndAfter(Step(b, Record(id)), Drop(id), []);
      ending := EndAfter(b, Record(id), more);
    }
  }

  lemma EndAfter(b: Budget, a: Action, rest: seq<Action>) returns (actions: seq<Action>)
    requires Enabled(b, a) && Possible(Step(b, a), rest)
    ensures actions == [a] + rest && Possible(b, actions) && After(b, actions) == After(Step(b, a), rest)
  {
    actions := [a] + rest;
    assert actions[1..] == rest;
  }

  // ----- growth is atomic -----

  /** The budget after the first `k` actions of a run. */
  function StateAt(b: Budget, actions: seq<Action>, k: nat): Budget
    requires Possible(b, actions) && k <= |actions|
    decreases k
  {
    if k == 0 then b else StateAt(Step(b, actions[0]), actions[1..], k - 1)
  }

  predicate Tries(b: Budget, id: Id) { id in b.reservations && b.reservations[id].Trying? }

  /** No action of `id` loads, so none begins a growth. */
  predicate NoLoad(actions: seq<Action>, id: Id) {
    forall a :: a in actions && a.Load? ==> a.id != id
  }

  lemma StepTries(b: Budget, a: Action, id: Id)
    requires Enabled(b, a) && Tries(Step(b, a), id) && (a.Load? ==> a.id != id)
    ensures Tries(b, id)
    ensures var r, r' := b.reservations[id], Step(b, a).reservations[id];
            r'.bytes == r.bytes && (r'.seen == r.seen || r'.seen == b.held)
  {}

  /** What a growth tests against is what it saw when it began, or what was held in some state
      since. */
  lemma {:induction false} SeenWasHeld(b: Budget, actions: seq<Action>, id: Id) returns (k: nat)
    requires Possible(b, actions) && NoLoad(actions, id) && Tries(After(b, actions), id)
    ensures Tries(b, id) && After(b, actions).reservations[id].bytes == b.reservations[id].bytes
    ensures k <= |actions|
    ensures var seen := After(b, actions).reservations[id].seen;
            seen == b.reservations[id].seen || seen == StateAt(b, actions, k).held
    decreases |actions|
  {
    k := 0;
    if actions != [] {
      var b', rest := Step(b, actions[0]), actions[1..];
      var k' := SeenWasHeld(b', rest, id);
      StepTries(b, actions[0], id);
      if After(b', rest).reservations[id].seen == StateAt(b', rest, k').held {
        k := k' + 1;
      }
    }
  }

  lemma {:induction false} BalancedAt(b: Budget, actions: seq<Action>, k: nat)
    requires Possible(b, actions) && k <= |actions| && Balanced(b)
    ensures Balanced(StateAt(b, actions, k)) && StateAt(b, actions, k).limit == b.limit
    decreases k
  {
    hide Balanced;
    if k > 0 {
      StepBalanced(b, actions[0]);
      BalancedAt(Step(b, actions[0]), actions[1..], k - 1);
    }
  }

  lemma {:induction false} EndsAfter(b: Budget, actions: seq<Action>)
    requires Possible(b, actions)
    ensures StateAt(b, actions, |actions|) == After(b, actions)
    decreases |actions|
  {
    if actions != [] {
      EndsAfter(Step(b, actions[0]), actions[1..]);
    }
  }

  /** The answer of one pass of the loop, from what it saw. */
  lemma AnswerMoves(b: Budget, id: Id, spurious: bool)
    requires Balanced(b) && Tries(b, id)
    ensures var r, answered := b.reservations[id], Step(b, Swap(id, spurious));
            && (answered.reservations[id].Recording? ==>
                  && Sum(Claims(b.reservations)) + r.bytes <= b.limit
                  && Sum(Claims(answered.reservations)) == Sum(Claims(b.reservations)) + r.bytes)
            && (answered.reservations[id].Idle? ==>
                  Claims(answered.reservations) == Claims(b.reservations) && r.seen + r.bytes > b.limit)
  {
    hide Sum;
    StepBalanced(b, Swap(id, spurious));
  }

  /** What a growth saw last is what was held in some state since its load. */
  lemma SeenSinceLoad(b: Budget, actions: seq<Action>, id: Id) returns (k: nat)
    requires Possible(b, actions) && NoLoad(actions, id) && Tries(After(b, actions), id) && Balanced(b)
    requires Tries(b, id) ==> b.reservations[id].seen == b.held
    ensures Tries(b, id) && After(b, actions).reservations[id].bytes == b.reservations[id].bytes
    ensures k <= |actions|
    ensures After(b, actions).reservations[id].seen == Sum(Claims(StateAt(b, actions, k).reservations))
    ensures Balanced(After(b, actions)) && After(b, actions).limit == b.limit
  {
    hide Sum, Claims, Possible, After;
    k := SeenWasHeld(b, actions, id);
    if After(b, actions).reservations[id].seen != StateAt(b, actions, k).held {
      k := 0;
    }
    BalancedAt(b, actions, k);
    BalancedAt(b, actions, |actions|);
    EndsAfter(b, actions);
  }

  /** In every interleaving a growth answers as if it happened at one instant between its load and
      its answer, whatever the others do meanwhile: granted, it takes its bytes in that one step
      and they fit; refused, it takes nothing, and at some instant of its run they did not fit. */
  lemma GrowthIsAtomic(limit: usize, before: seq<Action>, id: Id, bytes: usize, during: seq<Action>, spurious: bool)
    requires Possible(New(limit), before) && Enabled(After(New(limit), before), Load(id, bytes))
    requires var loaded := Step(After(New(limit), before), Load(id, bytes));
             && Possible(loaded, during) && NoLoad(during, id)
             && Enabled(After(loaded, during), Swap(id, spurious))
    ensures var loaded := Step(After(New(limit), before), Load(id, bytes));
            var last := After(loaded, during);
            var answered := Step(last, Swap(id, spurious));
            && (answered.reservations[id].Recording? ==>
                  && Sum(Claims(last.reservations)) + bytes <= limit
                  && Sum(Claims(answered.reservations)) == Sum(Claims(last.reservations)) + bytes)
            && (answered.reservations[id].Idle? ==>
                  && Claims(answered.reservations) == Claims(last.reservations)
                  && exists k :: 0 <= k <= |during| &&
                       Sum(Claims(StateAt(loaded, during, k).reservations)) + bytes > limit)
  {
    hide Sum, Claims, Possible, After, Balanced, StateAt, NoLoad;
    StartsBalanced(limit, before);
    var b := After(New(limit), before);
    var loaded := Step(b, Load(id, bytes));
    StepBalanced(b, Load(id, bytes));
    var k := SeenSinceLoad(loaded, during, id);
    AnswerMoves(After(loaded, during), id, spurious);
  }

  lemma StartsBalanced(limit: usize, actions: seq<Action>)
    requires Possible(New(limit), actions)
    ensures Balanced(After(New(limit), actions)) && After(New(limit), actions).limit == limit
  {
    RunKeeps(New(limit), actions, 0);
  }
}
