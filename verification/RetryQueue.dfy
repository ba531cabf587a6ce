/**
 The Postgres retry queue: pick the item that has been available longest, process it, delete it on
 success, and otherwise count the attempt and back off exponentially in 64-bit nanoseconds.
 */
module RetryQueue {
  import opened Wrappers
  import opened SheetRows

  // ------------------------------------------------------------------ backoff arithmetic

  function Pow2(k: nat): (p: nat)
    ensures p > 0
  {
    if k == 0 then 1 else 2 * Pow2(k - 1)
  }

  /** 1 << k on a 64-bit signed integer. */
  function ShiftOne(k: nat): int
  {
    if k < 64 then WrapInt64(Pow2(k)) else 0
  }

  /** The shifted value times one second, with the machine's wrap-around. */
  function Backoff(attempts: nat): int
  {
    WrapInt64(ShiftOne(attempts) * NANOS)
  }

  lemma {:induction false} Pow2Mono(j: nat, k: nat)
    requires j <= k
    ensures Pow2(j) <= Pow2(k) && (j < k ==> 2 * Pow2(j) <= Pow2(k))
    decreases k
  {
    if j < k {
      Pow2Mono(j, k - 1);
    }
  }

  lemma Pow2Values()
    ensures Pow2(33) == 8_589_934_592 && Pow2(34) == 17_179_869_184
  {
    assert Pow2(5) == 32;
    assert Pow2(10) == 1024;
    assert Pow2(15) == 32_768;
    assert Pow2(20) == 1_048_576;
    assert Pow2(25) == 33_554_432;
    assert Pow2(30) == 1_073_741_824;
  }

  /** Up to 33 attempts the backoff is 2^k seconds. */
  lemma BackoffIsExact(k: nat)
    requires k <= 33
    ensures Backoff(k) == Pow2(k) * NANOS
  {
    Pow2Values();
    Pow2Mono(k, 33);
  }

  lemma {:induction false} Pow2Splits(j: nat, k: nat)
    requires j <= k
    ensures Pow2(k) == Pow2(j) * Pow2(k - j)
    decreases k
  {
    if j < k {
      Pow2Splits(j, k - 1);
      assert Pow2(k - j) == 2 * Pow2(k - j - 1);
    }
  }

  lemma WrapIsShift(n: int) returns (m: int)
    ensures WrapInt64(n) == n - m * 18_446_744_073_709_551_616
    ensures -9_223_372_036_854_775_808 <= WrapInt64(n) <= 9_223_372_036_854_775_807
  {
    m := (n + 9_223_372_036_854_775_808) / 18_446_744_073_709_551_616;
  }

  lemma Distributes(p: int, m: int, w: int, x: int)
    requires x == p - m * w
    ensures x * 1_000_000_000 == p * 1_000_000_000 - m * 1_000_000_000 * w
  {
  }

  lemma Pow2Of64()
    ensures Pow2(64) == 18_446_744_073_709_551_616
  {
    Pow2Values();
    Pow2Splits(31, 64);
    assert Pow2(34) == 8 * Pow2(31);
  }

  /** The shift of 64 and more loses every bit; it differs from the power of two by a multiple of 2^64. */
  lemma ShiftIsModular(k: nat) returns (m: int)
    ensures ShiftOne(k) == Pow2(k) - m * 18_446_744_073_709_551_616
  {
    if k < 64 {
      m := WrapIsShift(Pow2(k));
    } else {
      Pow2Of64();
      Pow2Splits(64, k);
      m := Pow2(k - 64);
    }
  }

  /** For every count of attempts the backoff is 2^k seconds up to a multiple of 2^64, and fits in 64 bits. */
  lemma BackoffIsModular(k: nat) returns (m: int)
    ensures Backoff(k) == Pow2(k) * 1_000_000_000 - m * 18_446_744_073_709_551_616
    ensures -9_223_372_036_854_775_808 <= Backoff(k) <= 9_223_372_036_854_775_807
  {
    var i := ShiftIsModular(k);
    Distributes(Pow2(k), i, 18_446_744_073_709_551_616, ShiftOne(k));
    var j := WrapIsShift(ShiftOne(k) * NANOS);
    m := i * 1_000_000_000 + j;
  }

  /** At 34 it wraps to a negative duration. */
  lemma BackoffWraps()
    ensures Backoff(34) == -1_266_874_889_709_551_616
  {
    Pow2Values();
  }

  ghost predicate BackoffNeverOverflows(maxAttempts: int)
  {
    forall k: nat :: k < maxAttempts ==> Backoff(k) == Pow2(k) * NANOS
  }

  /** The backoffs that are used, those below max_attempts, never overflow if and only if max_attempts is at most 34. */
  lemma OverflowIff(maxAttempts: int)
    ensures BackoffNeverOverflows(maxAttempts) <==> maxAttempts <= 34
  {
    if maxAttempts <= 34 {
      forall k: nat | k < maxAttempts ensures Backoff(k) == Pow2(k) * NANOS {
        BackoffIsExact(k);
      }
    } else {
      BackoffWraps();
      Pow2Values();
      assert 34 < maxAttempts && Backoff(34) != Pow2(34) * NANOS;
    }
  }

  // ------------------------------------------------------------------ the queue as a state machine

  datatype Item = Item(attempts: nat, availableAt: int, maxAttempts: int)

  /** Times are nanoseconds of the one clock. `firstFailure` and `succeeded` are history. */
  datatype Queue = Queue(clock: int, items: map<int, Item>, firstFailure: map<int, int>, succeeded: set<int>)

  const EMPTY_QUEUE := Queue(0, map[], map[], {})

  datatype Step =
    | Tick(dt: nat)
    | Insert(id: int, maxAttempts: int)
    | Work(id: int, ok: bool, took: nat, dbFails: bool)

  /** What the pick query may return: an available item, and none available has been so for longer. */
  predicate Pickable(q: Queue, id: int)
  {
    && id in q.items && q.items[id].availableAt <= q.clock
    && forall other :: other in q.items && q.items[other].availableAt <= q.clock ==>
       q.items[id].availableAt <= q.items[other].availableAt
  }

  function Failed(item: Item, now: int): Item
  {
    var n := item.attempts + 1;
    Item(n, if n >= item.maxAttempts then now else now + Backoff(n), item.maxAttempts)
  }

  function Next(q: Queue, s: Step): Queue
  {
    match s
    case Tick(dt) => q.(clock := q.clock + dt)
    case Insert(id, max) =>
      if id in q.items || id in q.succeeded then q else q.(items := q.items[id := Item(0, q.clock, max)])
    case Work(id, ok, took, dbFails) =>
      if !Pickable(q, id) then q
      else
        var now := q.clock + took;
        var q1 := q.(clock := now, succeeded := if ok then q.succeeded + {id} else q.succeeded);
        if dbFails then q1
        else if ok then q1.(items := q1.items - {id})
        else q1.(items := q1.items[id := Failed(q.items[id], now)],
                 firstFailure := if id in q.firstFailure then q.firstFailure else q.firstFailure[id := now])
  }

  function Run(q: Queue, steps: seq<Step>): Queue
  {
    if |steps| == 0 then q else Next(Run(q, steps[..|steps| - 1]), steps[|steps| - 1])
  }

  /** Seconds that k recorded failures must have cost: 2 + 4 + ... + 2^k. */
  function Waited(k: nat): int
  {
    Pow2(k + 1) - 2
  }

  /** The item's next availability is at least the sum of its backoffs after its first failure. */
  predicate WaitsOut(q: Queue, id: int)
    requires id in q.items
  {
    var it := q.items[id];
    0 < it.attempts < it.maxAttempts && it.maxAttempts <= 34 ==>
      id in q.firstFailure && it.availableAt >= q.firstFailure[id] + Waited(it.attempts) * NANOS
  }

  ghost predicate Inv(q: Queue)
  {
    && (forall id :: id in q.items ==> WaitsOut(q, id) && (q.items[id].attempts == 0 <==> id !in q.firstFailure))
    && (forall id :: id in q.firstFailure ==> id in q.items || id in q.succeeded)
  }

  lemma FailureKeepsWaiting(q: Queue, id: int, took: nat)
    requires Inv(q) && Pickable(q, id)
    ensures WaitsOut(Next(q, Work(id, false, took, false)), id)
  {
    var it, now := q.items[id], q.clock + took;
    var n := it.attempts + 1;
    if n < it.maxAttempts <= 34 {
      BackoffIsExact(n);
      assert Waited(n) == Waited(it.attempts) + Pow2(n);
      assert it.attempts == 0 ==> Waited(it.attempts) == 0;
      assert Waited(n) * NANOS == Waited(it.attempts) * NANOS + Pow2(n) * NANOS;
      Pow2Mono(0, n);
    }
  }

  lemma NextKeepsInv(q: Queue, s: Step)
    requires Inv(q)
    ensures Inv(Next(q, s))
  {
    if s.Work? && Pickable(q, s.id) && !s.ok && !s.dbFails {
      FailureKeepsWaiting(q, s.id, s.took);
      var q' := Next(q, s);
      forall other | other in q'.items && other != s.id ensures WaitsOut(q', other) {
        assert WaitsOut(q, other);
      }
    }
  }

  lemma {:induction false} RunKeepsInv(q: Queue, steps: seq<Step>)
    requires Inv(q)
    ensures Inv(Run(q, steps))
    decreases |steps|
  {
    if |steps| > 0 {
      RunKeepsInv(q, steps[..|steps| - 1]);
      NextKeepsInv(Run(q, steps[..|steps| - 1]), steps[|steps| - 1]);
    }
  }

  /**
   In every run, an item that has failed k times, k below max_attempts and max_attempts at most 34, is
   not picked again earlier than 2^(k+1) - 2 seconds after its first failure.
   */
  lemma NotPickedEarly(steps: seq<Step>, id: int)
    requires var q := Run(EMPTY_QUEUE, steps);
      Pickable(q, id) && 0 < q.items[id].attempts < q.items[id].maxAttempts <= 34
    ensures var q := Run(EMPTY_QUEUE, steps);
      id in q.firstFailure && q.clock >= q.firstFailure[id] + (Pow2(q.items[id].attempts + 1) - 2) * NANOS
  {
    RunKeepsInv(EMPTY_QUEUE, steps);
    assert WaitsOut(Run(EMPTY_QUEUE, steps), id);
  }

  /** An item leaves the queue only in a step whose processing succeeded. */
  lemma {:induction false} DeletedOnlyAfterSuccess(q: Queue, steps: seq<Step>, id: int)
    requires id in q.items
    ensures var q' := Run(q, steps); id in q'.items || id in q'.succeeded
    decreases |steps|
  {
    if |steps| > 0 {
      DeletedOnlyAfterSuccess(q, steps[..|steps| - 1], id);
    }
  }

  /** An item that was processed successfully is gone for good, once a step has deleted it. */
  lemma {:induction false} StaysDeleted(q: Queue, steps: seq<Step>, id: int)
    requires id in q.succeeded && id !in q.items
    ensures id in Run(q, steps).succeeded && id !in Run(q, steps).items
    decreases |steps|
  {
    if |steps| > 0 {
      StaysDeleted(q, steps[..|steps| - 1], id);
    }
  }

  lemma SuccessRemovesForGood(q: Queue, id: int, took: nat, after: seq<Step>)
    requires id in q.items && q.items[id].availableAt <= q.clock
    requires forall other | other in q.items && q.items[other].availableAt <= q.clock ::
      q.items[id].availableAt <= q.items[other].availableAt
    ensures var q' := Next(q, Work(id, true, took, false));
      && q'.items == q.items - {id} && q'.clock == q.clock + took
      && id !in Run(q', after).items
  {
    StaysDeleted(Next(q, Work(id, true, took, false)), after, id);
  }

  /** A failure that is recorded moves the item's availability by exactly its backoff, or, the last time, to now. */
  lemma FailurePostpones(q: Queue, id: int, took: nat)
    requires id in q.items && q.items[id].availableAt <= q.clock && 0 <= q.items[id].attempts < 33
    requires forall other | other in q.items && q.items[other].availableAt <= q.clock ::
      q.items[id].availableAt <= q.items[other].availableAt
    ensures var it, now := q.items[id], q.clock + took;
      var n := it.attempts + 1;
      Next(q, Work(id, false, took, false)).items ==
        q.items[id := Item(n, if n < it.maxAttempts then now + Pow2(n) * 1_000_000_000 else now, it.maxAttempts)]
  {
    BackoffIsExact(q.items[id].attempts + 1);
  }

  /** A lost database call leaves the queue as it was, whatever the processing did. */
  lemma LostWriteKeepsItems(q: Queue, id: int, ok: bool, took: nat)
    ensures Next(q, Work(id, ok, took, true)).items == q.items
  {
  }

  /** Time passes for all items alike. */
  lemma TickMovesClock(q: Queue, dt: nat)
    ensures Next(q, Tick(dt)) == q.(clock := q.clock + dt)
  {
  }

  /** A new item has no attempts and is available at once. */
  lemma NewItemIsAvailable(q: Queue, id: int, max: int)
    requires id !in q.items && id !in q.succeeded
    ensures Next(q, Insert(id, max)) == q.(items := q.items[id := Item(0, q.clock, max)])
  {
  }

  // ------------------------------------------------------------------ the worker

  class SyncWorker {
    var queue: Queue

    constructor ()
      ensures queue == EMPTY_QUEUE
    {
      queue := EMPTY_QUEUE;
    }

    /** ORDER BY available_at LIMIT 1 over the available items. */
    method PickItem() returns (picked: Option<int>)
      ensures picked.Some? ==> Pickable(queue, picked.value)
      ensures picked.Some? ==>
        && picked.value in queue.items && queue.items[picked.value].availableAt <= queue.clock
        && forall id | id in queue.items && queue.items[id].availableAt <= queue.clock ::
          queue.items[picked.value].availableAt <= queue.items[id].availableAt
      ensures picked.None? ==> forall id :: id in queue.items ==> queue.items[id].availableAt > queue.clock
    {
      picked := None;
      var ids := KeysOf(queue.items);
      for i := 0 to |ids|
        invariant picked.Some? ==> picked.value in queue.items && queue.items[picked.value].availableAt <= queue.clock
        invariant forall j :: 0 <= j < i && queue.items[ids[j]].availableAt <= queue.clock ==>
          picked.Some? && queue.items[picked.value].availableAt <= queue.items[ids[j]].availableAt
      {
        assert ids[i] in ids;
        if queue.items[ids[i]].availableAt <= queue.clock {
          if picked == None || queue.items[ids[i]].availableAt < queue.items[picked.value].availableAt {
            picked := Some(ids[i]);
          }
        }
      }
      forall id | id in queue.items && queue.items[id].availableAt <= queue.clock
        ensures picked.Some? && queue.items[picked.value].availableAt <= queue.items[id].availableAt
      {
        var j :| 0 <= j < |ids| && ids[j] == id;
      }
    }

    method MarkAttemptFailure(id: int, now: int, dbFails: bool)
      requires id in queue.items
      modifies this
      ensures queue == if dbFails then old(queue) else old(queue).(
        items := old(queue).items[id := Failed(old(queue).items[id], now)],
        firstFailure := if id in old(queue).firstFailure then old(queue).firstFailure
          else old(queue).firstFailure[id := now])
    {
      if dbFails { return; }
      var item := queue.items[id];
      var attempts := item.attempts + 1;
      var backoff := Backoff(attempts);
      var availableAt := now + backoff;
      if attempts >= item.maxAttempts { availableAt := now; }
      queue := queue.(items := queue.items[id := Item(attempts, availableAt, item.maxAttempts)],
                      firstFailure := if id in queue.firstFailure then queue.firstFailure
                        else queue.firstFailure[id := now]);
    }

    method DeleteQueueItem(id: int, dbFails: bool)
      modifies this
      ensures queue == if dbFails then old(queue) else old(queue).(items := old(queue).items - {id})
    {
      if !dbFails { queue := queue.(items := queue.items - {id}); }
    }

    /** One tick of the worker. Beginning, reading or committing the pick may fail, and then nothing happens. */
    method ConsumeOnce(pickFails: bool, ok: bool, took: nat, dbFails: bool) returns (picked: Option<int>)
      modifies this
      ensures pickFails ==> picked.None?
      ensures picked.None? ==> queue == old(queue)
      ensures picked.None? && !pickFails ==> forall id :: id in queue.items ==>
        queue.items[id].availableAt > queue.clock
      ensures picked.Some? ==>
        Pickable(old(queue), picked.value) && queue == Next(old(queue), Work(picked.value, ok, took, dbFails))
      ensures picked.Some? ==>
        && picked.value in old(queue).items && old(queue).items[picked.value].availableAt <= old(queue).clock
        && (forall id | id in old(queue).items && old(queue).items[id].availableAt <= old(queue).clock ::
            old(queue).items[picked.value].availableAt <= old(queue).items[id].availableAt)
        && queue.clock == old(queue).clock + took
      ensures picked.Some? && ok && !dbFails ==> queue.items == old(queue).items - {picked.value}
      ensures picked.Some? && !ok && !dbFails ==>
        var item, now := old(queue).items[picked.value], old(queue).clock + took;
        var n := item.attempts + 1;
        && (n >= item.maxAttempts ==>
            queue.items == old(queue).items[picked.value := Item(n, now, item.maxAttempts)])
        && (n < item.maxAttempts ==>
            queue.items == old(queue).items[picked.value := Item(n, now + Backoff(n), item.maxAttempts)])
      ensures dbFails ==> queue.items == old(queue).items
    {
      picked := None;
      if pickFails { return; }
      picked := PickItem();
      if picked == None { return; }
      var id := picked.value;
      queue := queue.(clock := queue.clock + took);
      if ok {
        queue := queue.(succeeded := queue.succeeded + {id});
        DeleteQueueItem(id, dbFails);
      } else {
        MarkAttemptFailure(id, queue.clock, dbFails);
      }
    }
  }
}
