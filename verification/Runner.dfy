/**
 The projection loop: read the cursor, list a batch of events above it, run both processors on each
 event, and advance the cursor only after the whole batch succeeded.
 */
module Runner {
  import opened Wrappers
  import opened Ledger
  import opened Projection

  const DEFAULT_BATCH_SIZE := 50

  function EffectiveBatch(configured: int): (b: int)
    ensures b > 0 && (configured > 0 ==> b == configured) && (configured <= 0 ==> b == 50)
  {
    if configured <= 0 then DEFAULT_BATCH_SIZE else configured
  }

  // ------------------------------------------------------------------ specification of one round

  function Above(log: seq<Event>, since: int): seq<Event>
  {
    if |log| == 0 then []
    else
      var rest := Above(log[..|log| - 1], since);
      if log[|log| - 1].id > since then rest + [log[|log| - 1]] else rest
  }

  function Limited(es: seq<Event>, limit: int): seq<Event>
  {
    var n := if limit <= 0 then 100 else limit;
    if |es| <= n then es else es[..n]
  }

  /** WHERE id > since ORDER BY id LIMIT limit, for a log kept in id order. */
  function ListSince(log: seq<Event>, since: int, limit: int): seq<Event>
  {
    Limited(Above(log, since), limit)
  }

  /**
   Which calls of one round fail: reading the cursor, listing, the p-th processor on the i-th event, writing the
   cursor.
   */
  datatype Faults = Faults(get: bool, list: bool, process: (int, int) -> bool, put: bool)

  const NO_FAULTS := Faults(false, false, (i: int, p: int) => false, false)

  /**
   The stored cursor, and the events each processor has applied so far, in order. The read models are functions
   of these.
   */
  datatype Progress = Progress(cursor: int, bySummary: seq<Event>, byBalance: seq<Event>)

  const START := Progress(0, [], [])

  datatype Batch = Batch(progress: Progress, ok: bool)

  function ApplyEvent(p: Progress, e: Event, summaryFails: bool, balanceFails: bool): Batch
  {
    if !ProcessOk(e, summaryFails) then Batch(p, false)
    else
      var p1 := p.(bySummary := p.bySummary + [e]);
      if !ProcessOk(e, balanceFails) then Batch(p1, false)
      else Batch(p1.(byBalance := p1.byBalance + [e]), true)
  }

  /** Events in order, up to the first failure. */
  function ApplyBatch(p: Progress, es: seq<Event>, faults: Faults): Batch
  {
    if |es| == 0 then Batch(p, true)
    else
      var i := |es| - 1;
      var b := ApplyBatch(p, es[..i], faults);
      if !b.ok then b else ApplyEvent(b.progress, es[i], faults.process(i, 0), faults.process(i, 1))
  }

  function MaxId(es: seq<Event>): int
  {
    if |es| == 0 then 0
    else
      var m := MaxId(es[..|es| - 1]);
      if es[|es| - 1].id > m then es[|es| - 1].id else m
  }

  function Round(p: Progress, log: seq<Event>, batch: int, faults: Faults): Progress
  {
    if faults.get || faults.list then p
    else
      var es := ListSince(log, p.cursor, batch);
      var b := ApplyBatch(p, es, faults);
      if b.ok && MaxId(es) > 0 && !faults.put then b.progress.(cursor := MaxId(es)) else b.progress
  }

  // ------------------------------------------------------------------ the loop itself

  class CursorStore {
    var cursors: map<string, int>

    constructor ()
      ensures cursors == map[]
    {
      cursors := map[];
    }

    /** A projector that has no row yet starts at 0. */
    function Value(name: string): int
      reads this
    {
      if name in cursors then cursors[name] else 0
    }

    method Get(name: string, fails: bool) returns (r: Result<int>)
      ensures r.Err? <==> fails
      ensures r.Ok? ==> r.value == Value(name)
    {
      if fails { return Err("get cursor failed"); }
      if name in cursors { r := Ok(cursors[name]); } else { r := Ok(0); }
    }

    method Set(name: string, lastEventId: int, fails: bool)
      modifies this
      ensures cursors == if fails then old(cursors) else old(cursors)[name := lastEventId]
    {
      if !fails { cursors := cursors[name := lastEventId]; }
    }
  }

  /** The query's result set, scanned row by row. */
  method ListChangeEventsSince(log: seq<Event>, sinceId: int, limit: int) returns (result: seq<Event>)
    ensures result == ListSince(log, sinceId, limit)
    ensures forall e :: e in result ==> e in log && e.id > sinceId
    ensures |result| <= if limit <= 0 then 100 else limit
    ensures forall e :: e in log && e.id > sinceId && e !in result ==> |result| == if limit <= 0 then 100 else limit
  {
    var n := if limit <= 0 then 100 else limit;
    result := [];
    for i := 0 to |log|
      invariant result == Limited(Above(log[..i], sinceId), limit)
      invariant forall e :: e in result ==> e in log && e.id > sinceId
      invariant |result| <= n
      invariant forall e :: e in log[..i] && e.id > sinceId && e !in result ==> |result| == n
    {
      assert log[..i + 1][..i] == log[..i];
      if log[i].id > sinceId && |result| < n {
        result := result + [log[i]];
      }
    }
    assert log[..|log|] == log;
  }

  class ProjectionRunner {
    const name: string
    const batchSize: int
    const cursor: CursorStore
    const summary: TransactionSummaryProjector
    const balance: MonthlyBalanceProjector

    constructor (name: string, batchSize: int, cursor: CursorStore,
                 summary: TransactionSummaryProjector, balance: MonthlyBalanceProjector)
      ensures this.name == name && this.batchSize == batchSize
      ensures this.cursor == cursor && this.summary == summary && this.balance == balance
    {
      this.name, this.batchSize := name, batchSize;
      this.cursor, this.summary, this.balance := cursor, summary, balance;
    }

    ghost predicate Valid()
      reads summary, balance
    {
      summary.Valid() && balance.Valid()
    }

    ghost function State(): Progress
      reads cursor, summary, balance
    {
      Progress(cursor.Value(name), summary.applied, balance.applied)
    }

    /** All processors on one event, stopping at the first that fails. */
    method RunProcessors(e: Event, i: int, faults: Faults) returns (ok: bool)
      requires Valid()
      modifies summary, balance
      ensures Valid()
      ensures Batch(State(), ok) == ApplyEvent(old(State()), e, faults.process(i, 0), faults.process(i, 1))
    {
      ok := true;
      var p := 0;
      while p < 2 && ok
        invariant 0 <= p <= 2 && Valid()
        invariant p == 0 ==> ok && State() == old(State())
        invariant p == 1 && ok ==> ProcessOk(e, faults.process(i, 0))
        invariant p == 1 && ok ==> State() == old(State()).(bySummary := old(State()).bySummary + [e])
        invariant p == 2 || !ok ==>
          Batch(State(), ok) == ApplyEvent(old(State()), e, faults.process(i, 0), faults.process(i, 1))
      {
        if p == 0 {
          ok := summary.Process(e, faults.process(i, p));
        } else {
          ok := balance.Process(e, faults.process(i, p));
        }
        p := p + 1;
      }
    }

    /** Every processor on every event of a batch, up to the first failure; `maxId` is the largest id reached. */
    method RunBatch(events: seq<Event>, faults: Faults) returns (ok: bool, maxId: int)
      requires Valid()
      modifies summary, balance
      ensures Valid() && Batch(State(), ok) == ApplyBatch(old(State()), events, faults)
      ensures ok ==> maxId == MaxId(events)
    {
      ghost var start := State();
      maxId := 0;
      ok := true;
      var i := 0;
      while i < |events| && ok
        invariant 0 <= i <= |events| && Valid()
        invariant Batch(State(), ok) == ApplyBatch(start, events[..i], faults)
        invariant ok ==> maxId == MaxId(events[..i])
      {
        BatchStep(start, events, i, faults);
        ok := RunProcessors(events[i], i, faults);
        if ok && events[i].id > maxId { maxId := events[i].id; }
        i := i + 1;
      }
      assert events[..|events|] == events;
      if !ok {
        FailureSticks(start, events, i, faults);
      }
    }

    /** One turn of the loop of Start. Waiting between turns has no effect on the state. */
    method RunRound(log: seq<Event>, faults: Faults)
      requires Valid()
      modifies cursor, summary, balance
      ensures Valid() && State() == Round(old(State()), log, EffectiveBatch(batchSize), faults)
      ensures forall other :: other != name ==> cursor.Value(other) == old(cursor.Value(other))
      ensures faults.get || faults.list ==> State() == old(State())
      ensures faults.put ==> cursor.Value(name) == old(cursor.Value(name))
    {
      var last := cursor.Get(name, faults.get);
      if last.Err? || faults.list { return; }
      var events := ListChangeEventsSince(log, last.value, EffectiveBatch(batchSize));
      if |events| == 0 { return; }
      var ok, maxId := RunBatch(events, faults);
      if ok && maxId > 0 {
        cursor.Set(name, maxId, faults.put);
      }
    }
  }

  lemma BatchStep(p: Progress, es: seq<Event>, i: nat, faults: Faults)
    requires i < |es|
    ensures MaxId(es[..i + 1]) == if es[i].id > MaxId(es[..i]) then es[i].id else MaxId(es[..i])
    ensures ApplyBatch(p, es[..i + 1], faults) ==
      var b := ApplyBatch(p, es[..i], faults);
      if !b.ok then b else ApplyEvent(b.progress, es[i], faults.process(i, 0), faults.process(i, 1))
  {
    assert es[..i + 1][..i] == es[..i];
  }

  /** After a failure the rest of the batch is not looked at. */
  lemma {:induction false} FailureSticks(p: Progress, es: seq<Event>, n: nat, faults: Faults)
    requires n <= |es| && !ApplyBatch(p, es[..n], faults).ok
    ensures ApplyBatch(p, es, faults) == ApplyBatch(p, es[..n], faults)
    decreases |es|
  {
    if n < |es| {
      assert es[..|es| - 1][..n] == es[..n];
      FailureSticks(p, es[..|es| - 1], n, faults);
    } else {
      assert es[..n] == es;
    }
  }
}
