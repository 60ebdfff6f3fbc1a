/** Bounded parallelism: the work is cut into contiguous chunks, one per thread, and the chunk
    results are joined in chunk order however the threads interleave. A lane is a function of the
    index. */
module Scheduler {
  import opened Machine

  datatype Parallelism = Serial | Fixed(n: nat) | Auto

  const MAX_FIXED_WORKERS_CPU_MULTIPLE: nat := 4

  /** The setting lets `k` threads run. */
  predicate Allows(parallelism: Parallelism, cpus: nat, k: nat) {
    match parallelism
    case Serial => k <= 1
    case Fixed(n) => k <= n && k <= cpus * MAX_FIXED_WORKERS_CPU_MULTIPLE
    case Auto => k <= cpus
  }

  /** As many workers as the setting allows and there are items, but always one. */
  function ResolveWorkers(parallelism: Parallelism, items: nat, cpus: nat): (w: nat)
    requires cpus >= 1
    ensures 1 <= w <= Max(items, 1)
    ensures w == 1 || Allows(parallelism, cpus, w)
    ensures w == Max(items, 1) || !Allows(parallelism, cpus, w + 1)
  {
    var requested := match parallelism
      case Serial => 1
      case Fixed(n) => Max(Min(n, cpus * MAX_FIXED_WORKERS_CPU_MULTIPLE), 1)
      case Auto => cpus;
    Min(Max(requested, 1), Max(items, 1))
  }

  datatype Chunk = Chunk(start: nat, end: nat)

  /** Non-empty ranges, each starting where the one before ended, from 0 to `n`. */
  predicate Tiles(chunks: seq<Chunk>, n: nat) {
    if chunks == [] then n == 0
    else
      var last := chunks[|chunks| - 1];
      last.start < last.end == n && Tiles(chunks[..|chunks| - 1], last.start)
  }

  method ContiguousChunks(n: nat, workers: nat) returns (chunks: seq<Chunk>)
    ensures Tiles(chunks, n)
    ensures |chunks| == Min(Max(workers, 1), n)
    ensures forall i :: 0 <= i < |chunks| ==> 0 <= chunks[i].end - chunks[i].start - n / |chunks| <= 1
  {
    chunks := [];
    if n == 0 { return; }
    var count := Min(Max(workers, 1), n);
    Shares(n, count);
    chunks := Deal(count, n / count, n % count);
  }

  /** The first `remainder` of `count` chunks take one item more than `base`. */
  method Deal(count: nat, base: nat, remainder: nat) returns (chunks: seq<Chunk>)
    requires base >= 1 && remainder <= count
    ensures Tiles(chunks, count * base + remainder)
    ensures |chunks| == count
    ensures forall i :: 0 <= i < |chunks| ==> 0 <= chunks[i].end - chunks[i].start - base <= 1
  {
    chunks := [];
    var start: nat := 0;
    ghost var shared: nat := 0;
    for w := 0 to count
      invariant |chunks| == w && Tiles(chunks, start)
      invariant shared == w * base && start == shared + Min(w, remainder)
      invariant forall i :: 0 <= i < w ==> 0 <= chunks[i].end - chunks[i].start - base <= 1
    {
      var len := base + if w < remainder then 1 else 0;
      if len == 0 { continue; }
      chunks := chunks + [Chunk(start, start + len)];
      assert chunks[..w] + [chunks[w]] == chunks;
      start := start + len;
      OneMore(w, base);
      shared := shared + base;
    }
  }

  lemma OneMore(w: nat, base: nat)
    ensures (w + 1) * base == w * base + base
  {}

  lemma Shares(n: nat, count: nat)
    requires 0 < count <= n
    ensures n / count >= 1 && n == count * (n / count) + n % count
  {}

  // ----- running -----

  /** A lane answers for an index, or panics with a payload. */
  datatype Answer<T, P> = Value(value: T) | Panic(payload: P)
  datatype Outcome<T, P> = Done(values: seq<T>) | Panicked(payload: P)

  /** The lane over `lo..hi`, one index after the other: the first panic stops it. */
  function RunSerially<T, P>(lane: nat -> Answer<T, P>, lo: nat, hi: nat): Outcome<T, P>
    requires lo <= hi
    decreases hi - lo
  {
    if lo == hi then Done([]) else Extended(RunSerially(lane, lo, hi - 1), lane, hi - 1)
  }

  /** One more index; a lane that panicked goes no further. */
  function Extended<T, P>(front: Outcome<T, P>, lane: nat -> Answer<T, P>, i: nat): Outcome<T, P> {
    if front.Panicked? then front
    else match lane(i)
      case Value(v) => Done(front.values + [v])
      case Panic(p) => Panicked(p)
  }

  /** Some index panics with `payload` and none before it does. */
  ghost predicate FirstPanic<T, P>(lane: nat -> Answer<T, P>, n: nat, payload: P) {
    exists i: nat :: i < n && lane(i) == Panic(payload) && forall j: nat :: j < i ==> lane(j).Value?
  }

  /** What a serial run gives: every answer in order, or the payload of the first panic. */
  lemma {:induction false} SerialOutcome<T, P>(lane: nat -> Answer<T, P>, n: nat)
    ensures var outcome := RunSerially(lane, 0, n);
            && (outcome.Done? <==> forall i: nat :: i < n ==> lane(i).Value?)
            && (outcome.Done? ==>
                  |outcome.values| == n && forall i: nat :: i < n ==> lane(i) == Value(outcome.values[i]))
            && (outcome.Panicked? ==> FirstPanic(lane, n, outcome.payload))
  {
    if n > 0 {
      SerialOutcome(lane, n - 1);
      var front := RunSerially(lane, 0, n - 1);
      if front.Panicked? {
        var i: nat :| i < n - 1 && lane(i) == Panic(front.payload) && forall j: nat :: j < i ==> lane(j).Value?;
        assert i < n && !lane(i).Value?;
      }
    }
  }

  /** A serial run panics with `p` exactly when the first panic is with `p`. */
  lemma SerialPanic<T, P>(lane: nat -> Answer<T, P>, n: nat, p: P)
    ensures RunSerially(lane, 0, n) == Panicked(p) <==> FirstPanic(lane, n, p)
  {
    hide RunSerially;
    SerialOutcome(lane, n);
    var outcome := RunSerially(lane, 0, n);
    if FirstPanic(lane, n, p) {
      var i: nat :| i < n && lane(i) == Panic(p) && forall j: nat :: j < i ==> lane(j).Value?;
      assert !lane(i).Value?;
      var k: nat :| k < n && lane(k) == Panic(outcome.payload) && forall j: nat :: j < k ==> lane(j).Value?;
    }
  }

  /** Two outcomes joined in order. */
  function Joined<T, P>(a: Outcome<T, P>, b: Outcome<T, P>): Outcome<T, P> {
    if a.Panicked? then a else if b.Panicked? then b else Done(a.values + b.values)
  }

  lemma {:induction false} SerialSplits<T, P>(lane: nat -> Answer<T, P>, lo: nat, mid: nat, hi: nat)
    requires lo <= mid <= hi
    ensures RunSerially(lane, lo, hi) == Joined(RunSerially(lane, lo, mid), RunSerially(lane, mid, hi))
    decreases hi - mid
  {
    if mid < hi {
      SerialSplits(lane, lo, mid, hi - 1);
      var a, b := RunSerially(lane, lo, mid), RunSerially(lane, mid, hi - 1);
      if a.Done? && b.Done? && lane(hi - 1).Value? {
        assert a.values + b.values + [lane(hi - 1).value] == a.values + (b.values + [lane(hi - 1).value]);
      }
    } else if RunSerially(lane, lo, mid).Done? {
      assert RunSerially(lane, lo, mid).values + [] == RunSerially(lane, lo, mid).values;
    }
  }

  lemma TilesInOrder(chunks: seq<Chunk>, n: nat)
    requires Tiles(chunks, n)
    ensures InOrder(chunks)
  {
    forall i | 0 <= i < |chunks| ensures chunks[i].start <= chunks[i].end {
      TilesPrefix(chunks, n, i);
    }
  }

  /** How often a schedule lets thread `i` take a step. */
  function Turns(schedule: seq<nat>, i: nat): nat {
    if schedule == [] then 0
    else Turns(schedule[..|schedule| - 1], i) + if schedule[|schedule| - 1] == i then 1 else 0
  }

  /** Every thread gets as many steps as its chunk has items. */
  ghost predicate Fair(chunks: seq<Chunk>, schedule: seq<nat>) {
    forall i :: 0 <= i < |chunks| ==> chunks[i].end - chunks[i].start <= Turns(schedule, i)
  }

  predicate InOrder(chunks: seq<Chunk>) {
    forall i :: 0 <= i < |chunks| ==> chunks[i].start <= chunks[i].end
  }

  /** The threads take their steps, one item each, interleaved as the schedule says; a thread with
      nothing left to do lets its turn pass. Each leaves its chunk's outcome. */
  method RunThreads<T, P>(lane: nat -> Answer<T, P>, chunks: seq<Chunk>, schedule: seq<nat>)
    returns (handles: seq<Outcome<T, P>>)
    requires InOrder(chunks) && Fair(chunks, schedule)
    ensures |handles| == |chunks|
    ensures forall i :: 0 <= i < |chunks| ==> handles[i] == RunSerially(lane, chunks[i].start, chunks[i].end)
  {
    hide Extended;
    handles := seq(|chunks|, i => Done([]));
    var at := seq(|chunks|, i requires 0 <= i < |chunks| => chunks[i].start);
    for k := 0 to |schedule|
      invariant |handles| == |at| == |chunks|
      invariant forall i :: 0 <= i < |chunks| ==> chunks[i].start <= at[i] <= chunks[i].end
      invariant forall i :: 0 <= i < |chunks| ==> handles[i] == RunSerially(lane, chunks[i].start, at[i])
      invariant forall i :: 0 <= i < |chunks| && at[i] < chunks[i].end ==>
                  at[i] - chunks[i].start == Turns(schedule[..k], i)
    {
      var i := schedule[k];
      assert schedule[..k + 1][..k] == schedule[..k];
      if i < |chunks| && at[i] < chunks[i].end {
        handles := handles[i := Extended(handles[i], lane, at[i])];
        at := at[i := at[i] + 1];
      }
    }
    assert schedule[..|schedule|] == schedule;
  }

  /** Joining in chunk order gives what one thread would have given, for any worker count and any
      interleaving of the threads: every answer in order, or the payload of the first panic. */
  method RunLane<T, P>(lane: nat -> Answer<T, P>, n: nat, parallelism: Parallelism, cpus: nat,
                       schedules: seq<Chunk> -> seq<nat>)
    returns (outcome: Outcome<T, P>)
    requires cpus >= 1
    requires forall chunks :: Fair(chunks, schedules(chunks))
    ensures outcome.Done? <==> forall i: nat :: i < n ==> lane(i).Value?
    ensures outcome.Done? ==> |outcome.values| == n && forall i: nat :: i < n ==> lane(i) == Value(outcome.values[i])
    ensures forall p :: outcome == Panicked(p) <==> FirstPanic(lane, n, p)
  {
    hide FirstPanic, RunSerially;
    outcome := RunChunks(lane, n, parallelism, cpus, schedules);
    SerialOutcome(lane, n);
    forall p ensures outcome == Panicked(p) <==> FirstPanic(lane, n, p) {
      SerialPanic(lane, n, p);
    }
  }

  method RunChunks<T, P>(lane: nat -> Answer<T, P>, n: nat, parallelism: Parallelism, cpus: nat,
                         schedules: seq<Chunk> -> seq<nat>)
    returns (outcome: Outcome<T, P>)
    requires cpus >= 1
    requires forall chunks :: Fair(chunks, schedules(chunks))
    ensures outcome == RunSerially(lane, 0, n)
  {
    if n == 0 { return Done([]); }
    var workers := ResolveWorkers(parallelism, n, cpus);
    if workers <= 1 { return RunSerially(lane, 0, n); }
    var chunks := ContiguousChunks(n, workers);
    assert InOrder(chunks) by { TilesInOrder(chunks, n); }
    var handles := RunThreads(lane, chunks, schedules(chunks));
    outcome := Done([]);
    ghost var upTo: nat := 0;
    for i := 0 to |chunks|
      invariant Tiles(chunks[..i], upTo) && upTo <= n
      invariant outcome == RunSerially(lane, 0, upTo)
    {
      TilesPrefix(chunks, n, i);
      assert chunks[..i + 1][..i] == chunks[..i];
      TilesEnd(chunks[..i], upTo, chunks[i].start);
      SerialSplits(lane, 0, chunks[i].start, chunks[i].end);
      outcome := Joined(outcome, handles[i]);
      upTo := chunks[i].end;
    }
    assert chunks[..|chunks|] == chunks;
    TilesEnd(chunks, upTo, n);
  }

  lemma {:induction false} TilesPrefix(chunks: seq<Chunk>, n: nat, i: nat)
    requires Tiles(chunks, n) && i < |chunks|
    ensures Tiles(chunks[..i + 1], chunks[i].end) && Tiles(chunks[..i], chunks[i].start)
    ensures chunks[i].start < chunks[i].end <= n
    decreases |chunks|
  {
    var last := |chunks| - 1;
    if i < last {
      TilesPrefix(chunks[..last], chunks[last].start, i);
      assert chunks[..last][..i + 1] == chunks[..i + 1] && chunks[..last][..i] == chunks[..i];
    } else {
      assert chunks[..i + 1] == chunks;
    }
  }

  lemma TilesEnd(chunks: seq<Chunk>, a: nat, b: nat)
    requires Tiles(chunks, a) && Tiles(chunks, b)
    ensures a == b
  {}
}
