/**
 The whole pipeline as one system: clients change the ledger while the projection loop reads its log.
 The read models are related back to the live rows of the transactions table.
 */
module EndToEnd {
  import opened Ledger
  import opened LedgerHistory
  import opened Projection
  import opened Runner
  import opened RunnerHistory
  import opened Accounting
  import opened Sums

  datatype System = System(world: World, progress: Progress)

  const BOOT := System(INITIAL, START)

  datatype SystemAction =
    | Client(action: Action)
    | Project(faults: Faults)

  function SystemNext(s: System, a: SystemAction, b: int): System
  {
    match a
    case Client(action) => s.(world := Next(s.world, action))
    case Project(faults) => s.(progress := Round(s.progress, s.world.store.log, b, faults))
  }

  /** Any interleaving of client steps and projection rounds with batch size b. */
  function SystemRun(actions: seq<SystemAction>, b: int): System
  {
    if |actions| == 0 then BOOT
    else SystemNext(SystemRun(actions[..|actions| - 1], b), actions[|actions| - 1], b)
  }

  // ------------------------------------------------------------------ every run

  lemma LedgerLogIsFit(w: World)
    requires Inv(w)
    ensures LogOk(w.store.log) && AllDecodable(w.store.log)
  {
    forall i | 0 <= i < |w.store.log| ensures Decodable(w.store.log[i]) {
      VersionBound(w.store.log, i);
    }
  }

  lemma ClientStepGrowsLog(w: World, a: Action)
    ensures w.store.log <= Next(w, a).store.log
  {
  }

  /** At-least-once delivery in every run, for any pattern of processor, cursor and database failures. */
  lemma {:induction false} AlwaysAtLeastOnce(actions: seq<SystemAction>, b: int)
    requires b > 0
    ensures var s := SystemRun(actions, b);
      Inv(s.world) && LogOk(s.world.store.log) && AtLeastOnce(s.progress, s.world.store.log, b)
    decreases |actions|
  {
    if |actions| > 0 {
      var front, a := actions[..|actions| - 1], actions[|actions| - 1];
      AlwaysAtLeastOnce(front, b);
      var s := SystemRun(front, b);
      match a
      case Client(action) =>
        NextKeepsInv(s.world, action);
        ClientStepGrowsLog(s.world, action);
        LedgerLogIsFit(Next(s.world, action));
        GrowthKeepsAtLeastOnce(s.progress, s.world.store.log, Next(s.world, action).store.log, b);
      case Project(faults) =>
        RoundKeepsAtLeastOnce(s.progress, s.world.store.log, b, faults);
    }
  }

  // ------------------------------------------------------------------ runs without wasted rounds

  /** No round does work that the cursor fails to record. Every run without failures is of this kind. */
  predicate NoWaste(actions: seq<SystemAction>, b: int)
  {
    |actions| > 0 ==>
      && NoWaste(actions[..|actions| - 1], b)
      && var s, a := SystemRun(actions[..|actions| - 1], b), actions[|actions| - 1];
         a.Project? ==> !Wasted(s.progress, s.world.store.log, b, a.faults)
  }

  /** No call of the projection loop ever fails. */
  ghost predicate FailureFree(actions: seq<SystemAction>)
  {
    forall i :: 0 <= i < |actions| && actions[i].Project? ==> NoCallFails(actions[i].faults)
  }

  lemma {:induction false} FailureFreeHasNoWaste(actions: seq<SystemAction>, b: int)
    requires FailureFree(actions) && b > 0
    ensures NoWaste(actions, b)
    decreases |actions|
  {
    if |actions| > 0 {
      var front := actions[..|actions| - 1];
      FailureFreeHasNoWaste(front, b);
      AlwaysAtLeastOnce(front, b);
      var s := SystemRun(front, b);
      LedgerLogIsFit(s.world);
      var a := actions[|actions| - 1];
      if a.Project? {
        NothingFails(s.world.store.log, s.progress.cursor, b, a.faults);
      }
    }
  }

  ghost predicate InStepSomewhere(s: System)
  {
    exists n :: InStep(s.progress, s.world.store.log, n)
  }

  lemma InStepGrows(p: Progress, log: seq<Event>, log': seq<Event>, n: nat)
    requires InStep(p, log, n) && log <= log'
    ensures InStep(p, log', n)
  {
    assert log'[..n] == log[..n];
  }

  /** After every step of the run, the read models hold exactly the events the cursor counts. */
  ghost predicate AlwaysInStep(actions: seq<SystemAction>, b: int)
  {
    forall k :: 0 <= k <= |actions| ==> InStepSomewhere(SystemRun(actions[..k], b))
  }

  lemma AlwaysInStepAppend(front: seq<SystemAction>, a: SystemAction, b: int)
    ensures AlwaysInStep(front + [a], b) <==> AlwaysInStep(front, b) && InStepSomewhere(SystemRun(front + [a], b))
  {
    var all := front + [a];
    assert all[..|all|] == all;
    assert forall k :: 0 <= k <= |front| ==> all[..k] == front[..k];
  }

  lemma AlwaysInStepEnds(actions: seq<SystemAction>, b: int)
    requires AlwaysInStep(actions, b)
    ensures InStepSomewhere(SystemRun(actions, b))
  {
    assert actions[..|actions|] == actions;
  }

  /** Exactly-once delivery holds throughout a run if and only if the run has no wasted round. */
  lemma {:induction false} ExactlyOnceIff(actions: seq<SystemAction>, b: int)
    requires b > 0
    ensures NoWaste(actions, b) <==> AlwaysInStep(actions, b)
    decreases |actions|
  {
    if |actions| == 0 {
      assert InStep(START, [], 0);
    } else {
      var front, a := actions[..|actions| - 1], actions[|actions| - 1];
      assert actions == front + [a];
      ExactlyOnceIff(front, b);
      AlwaysInStepAppend(front, a, b);
      if AlwaysInStep(front, b) {
        AlwaysInStepEnds(front, b);
        StepKeepsExactlyOnceIff(SystemRun(front, b), front, a, b);
      }
    }
  }

  lemma StepKeepsExactlyOnceIff(s: System, front: seq<SystemAction>, a: SystemAction, b: int)
    requires b > 0 && s == SystemRun(front, b) && InStepSomewhere(s)
    ensures InStepSomewhere(SystemNext(s, a, b)) <==>
      (a.Project? ==> !Wasted(s.progress, s.world.store.log, b, a.faults))
  {
    var n: nat :| InStep(s.progress, s.world.store.log, n);
    AlwaysAtLeastOnce(front, b);
    match a
    case Client(action) =>
      ClientStepGrowsLog(s.world, action);
      InStepGrows(s.progress, s.world.store.log, Next(s.world, action).store.log, n);
    case Project(faults) =>
      RoundInStep(s.progress, s.world.store.log, n, b, faults);
  }

  /** The cursor stands at the last event. */
  predicate CaughtUp(s: System)
  {
    s.progress.cursor == IdAt(s.world.store.log, |s.world.store.log|)
  }

  lemma CaughtUpAppliedAll(actions: seq<SystemAction>, b: int)
    requires b > 0 && NoWaste(actions, b) && CaughtUp(SystemRun(actions, b))
    ensures var s := SystemRun(actions, b);
      Inv(s.world) && s.progress.bySummary == s.world.store.log && s.progress.byBalance == s.world.store.log
  {
    var s := SystemRun(actions, b);
    var log := s.world.store.log;
    AlwaysAtLeastOnce(actions, b);
    ExactlyOnceIff(actions, b);
    AlwaysInStepEnds(actions, b);
    var n: nat :| InStep(s.progress, log, n);
    CutInStep(log, n);
    CutInStep(log, |log|);
    assert log[..n] == log;
  }

  /** The aggregate over live rows plus the aggregate over overwritten versions. */
  ghost function LivePlusOverwritten(s: Store, f: Measure): int
  {
    LiveTotal(s.table, f) + OverwrittenTotal(s.log, f)
  }

  lemma UpdateFreeIsLive(s: Store, f: Measure)
    requires UpdateFree(s.log)
    ensures LivePlusOverwritten(s, f) == LiveTotal(s.table, f)
  {
    NothingOverwritten(s.log, |s.log|, f);
  }

  lemma SummaryOfLedger(w: World, k: SummaryKey)
    requires Inv(w)
    ensures SummaryCell(SummaryTable(w.store.log), k) ==
      Bucket(LivePlusOverwritten(w.store, AmountIn(k)), LivePlusOverwritten(w.store, CountIn(k)))
  {
    SummaryCellIsSigned(w.store.log, k);
    ProjectionIsLivePlusOverwritten(w.store.log, AmountIn(k));
    ProjectionIsLivePlusOverwritten(w.store.log, CountIn(k));
  }

  lemma BalanceOfLedger(w: World, a: BalanceKey)
    requires Inv(w)
    ensures BalanceCell(BalanceTable(w.store.log), a) == LivePlusOverwritten(w.store, BalanceIn(a))
  {
    BalanceCellIsSigned(w.store.log, a);
    ProjectionIsLivePlusOverwritten(w.store.log, BalanceIn(a));
  }

  /**
   End to end: once the cursor has caught up, every cell of both read models is the aggregate over
   the live rows plus exactly the aggregate over the versions overwritten by updates.
   */
  lemma ReadModelsAreLivePlusOverwritten(actions: seq<SystemAction>, b: int, k: SummaryKey, a: BalanceKey)
    requires b > 0 && NoWaste(actions, b) && CaughtUp(SystemRun(actions, b))
    ensures var s := SystemRun(actions, b);
      && SummaryCell(SummaryTable(s.progress.bySummary), k) ==
         Bucket(LivePlusOverwritten(s.world.store, AmountIn(k)), LivePlusOverwritten(s.world.store, CountIn(k)))
      && BalanceCell(BalanceTable(s.progress.byBalance), a) == LivePlusOverwritten(s.world.store, BalanceIn(a))
  {
    CaughtUpAppliedAll(actions, b);
    SummaryOfLedger(SystemRun(actions, b).world, k);
    BalanceOfLedger(SystemRun(actions, b).world, a);
  }

  /**
   On a history without updates the read models are the aggregates of the live table, once the cursor has caught
   up.
   */
  lemma UpdateFreeIsExact(actions: seq<SystemAction>, b: int, k: SummaryKey, a: BalanceKey)
    requires b > 0 && NoWaste(actions, b) && CaughtUp(SystemRun(actions, b))
    requires UpdateFree(SystemRun(actions, b).world.store.log)
    ensures var s := SystemRun(actions, b);
      var t := s.world.store.table;
      && SummaryCell(SummaryTable(s.progress.bySummary), k) ==
        Bucket(LiveTotal(t, AmountIn(k)), LiveTotal(t, CountIn(k)))
      && BalanceCell(BalanceTable(s.progress.byBalance), a) == LiveTotal(t, BalanceIn(a))
  {
    var store := SystemRun(actions, b).world.store;
    ReadModelsAreLivePlusOverwritten(actions, b, k, a);
    UpdateFreeIsLive(store, AmountIn(k));
    UpdateFreeIsLive(store, CountIn(k));
    UpdateFreeIsLive(store, BalanceIn(a));
  }

  ghost predicate CountsAreLive(s: System)
  {
    forall k :: SummaryCell(SummaryTable(s.progress.bySummary), k).count == LiveTotal(s.world.store.table, CountIn(k))
  }

  /**
   Once the cursor has caught up, the summary counts the live rows in every bucket if and only if the history
   has no update.
   */
  lemma CountsAreLiveIff(actions: seq<SystemAction>, b: int)
    requires b > 0 && NoWaste(actions, b) && CaughtUp(SystemRun(actions, b))
    ensures var s := SystemRun(actions, b);
      CountsAreLive(s) <==> UpdateFree(s.world.store.log)
  {
    var s := SystemRun(actions, b);
    var log := s.world.store.log;
    var a := BalanceKey("", "", 0);
    CaughtUpAppliedAll(actions, b);
    if UpdateFree(log) {
      forall k ensures SummaryCell(SummaryTable(s.progress.bySummary), k).count ==
        LiveTotal(s.world.store.table, CountIn(k)) {
        UpdateFreeIsExact(actions, b, k, a);
      }
    } else {
      var j :| 0 <= j < |log| && log[j].opType == "update";
      var k := UpdateLeavesTrace(log, j);
      ReadModelsAreLivePlusOverwritten(actions, b, k, a);
    }
  }

  /** Cross-projection conservation, at every point of a run without wasted rounds. */
  lemma UserMonthTotalsAgree(actions: seq<SystemAction>, b: int, user: string, month: int)
    requires b > 0 && NoWaste(actions, b)
    ensures var p := SystemRun(actions, b).progress;
      MapSum(SummarySlice(SummaryTable(p.bySummary), user, month)) ==
        MapSum(BalanceSlice(BalanceTable(p.byBalance), user, month))
  {
    ExactlyOnceIff(actions, b);
    AlwaysInStepEnds(actions, b);
    ProjectionsAgree(SystemRun(actions, b).progress.bySummary, user, month);
  }

  /**
   Rows of the ledger always have a currency and a type, so the projector's defaults never move a row to another
   bucket.
   */
  lemma LedgerRowsKeepTheirBucket(w: World, id: string)
    requires Inv(w) && id in w.store.table
    ensures var c := w.store.table[id].content;
      SummaryKeyOf(w.store.table[id].userId, c) ==
        SummaryKey(w.store.table[id].userId, c.occurredAt.month, c.currency, c.kind)
  {
  }

  // ------------------------------------------------------------------ the shortest history that is counted twice

  const LUNCH := Content("acc", 500, "IDR", "expense", Wrappers.None, Wrappers.None, Instant(0, 0), "{}", "app")
  const CREATED := Row("t1", "u", LUNCH, Wrappers.None, 1, 0, Wrappers.None)
  const UPDATED := CREATED.(version := 2, lastModified := 1)
  const HISTORY := [EventFor(1, CREATED, "create", 0), EventFor(2, UPDATED, "update", 1)]

  const CREATE := Client(DoCreate(CreateInput("u", LUNCH), "t1", 0, NoFault, false))
  const LOAD := Client(DoLoad(1, "t1"))
  const UPDATE := Client(DoUpdate(1, LUNCH, 1, NoFault, false))

  lemma SystemRunAppend(front: seq<SystemAction>, a: SystemAction, b: int)
    ensures SystemRun(front + [a], b) == SystemNext(SystemRun(front, b), a, b)
  {
    assert (front + [a])[..|front|] == front;
  }

  lemma CreateThenUpdate()
    ensures var s := SystemRun([CREATE, LOAD, UPDATE], 50);
      s.world.store == Store(map["t1" := UPDATED], HISTORY, 3) && s.progress == START
  {
    SystemRunAppend([], CREATE, 50);
    SystemRunAppend([CREATE], LOAD, 50);
    SystemRunAppend([CREATE, LOAD], UPDATE, 50);
    assert [CREATE] + [LOAD] == [CREATE, LOAD] && [CREATE, LOAD] + [UPDATE] == [CREATE, LOAD, UPDATE];
    var s1 := SystemNext(BOOT, CREATE, 50);
    assert s1.world.store == Store(map["t1" := CREATED], HISTORY[..1], 2);
    var s2 := SystemNext(s1, LOAD, 50);
    assert s2.world.held == map[1 := CREATED];
    var s3 := SystemNext(s2, UPDATE, 50);
    assert s3.world.store == Store(map["t1" := UPDATED], HISTORY[..1] + [HISTORY[1]], 3);
  }

  lemma HistoryCountsTwo()
    ensures SummaryCell(SummaryTable(HISTORY), SummaryKeyOf("u", LUNCH)) == Bucket(1000, 2)
  {
    assert HISTORY[..1][..0] == [];
    assert SummaryTable(HISTORY[..1]) == SummaryAfter(map[], HISTORY[0]);
  }

  /** One create and one update of one row: the table holds one row, its bucket counts two. */
  lemma UpdateIsCountedTwice()
    ensures var s := SystemRun([CREATE, LOAD, UPDATE, Project(NO_FAULTS)], 50);
      && CaughtUp(s) && s.world.store.table == map["t1" := UPDATED]
      && SummaryCell(SummaryTable(s.progress.bySummary), SummaryKeyOf("u", LUNCH)) == Bucket(1000, 2)
  {
    SystemRunAppend([CREATE, LOAD, UPDATE], Project(NO_FAULTS), 50);
    assert [CREATE, LOAD, UPDATE] + [Project(NO_FAULTS)] == [CREATE, LOAD, UPDATE, Project(NO_FAULTS)];
    CreateThenUpdate();
    AlwaysAtLeastOnce([CREATE, LOAD, UPDATE], 50);
    LedgerLogIsFit(SystemRun([CREATE, LOAD, UPDATE], 50).world);
    DrainedExactlyAfter(HISTORY, 50, 1);
    assert Drain(START, HISTORY, 50, 1) == Round(Drain(START, HISTORY, 50, 0), HISTORY, 50, NO_FAULTS);
    HistoryCountsTwo();
  }

  // ------------------------------------------------------------------ the shortest history that is applied twice

  /** Everything succeeds but the cursor write. */
  const CURSOR_LOST := NO_FAULTS.(put := true)

  lemma CreateOnly()
    ensures var s := SystemRun([CREATE], 50);
      s.world.store == Store(map["t1" := CREATED], [HISTORY[0]], 2) && s.progress == START
  {
    assert [CREATE][..0] == [] && [CREATE][0] == CREATE;
    assert SystemRun([CREATE], 50) == SystemNext(BOOT, CREATE, 50);
    assert [] + [HISTORY[0]] == [HISTORY[0]];
  }

  const ONCE := [HISTORY[0]]

  /** One event, both rounds of which apply it: the first does not move the cursor, the second does. */
  lemma LostCursorRounds()
    ensures Wasted(START, ONCE, 50, CURSOR_LOST)
    ensures Round(START, ONCE, 50, CURSOR_LOST) == Progress(0, ONCE, ONCE)
    ensures Round(Progress(0, ONCE, ONCE), ONCE, 50, NO_FAULTS) == Progress(1, ONCE + ONCE, ONCE + ONCE)
  {
    assert ONCE[..0] == [];
    assert Above([], 0) == [] && Above(ONCE, 0) == ONCE;
    assert MaxId([]) == 0 && MaxId(ONCE) == 1;
    OneEventBatch(START, ONCE, CURSOR_LOST);
    OneEventBatch(Progress(0, ONCE, ONCE), ONCE, NO_FAULTS);
  }

  lemma OneEventBatch(p: Progress, log: seq<Event>, faults: Faults)
    requires |log| == 1 && ProcessOk(log[0], faults.process(0, 0)) && ProcessOk(log[0], faults.process(0, 1))
    ensures ApplyBatch(p, log, faults) ==
      Batch(p.(bySummary := p.bySummary + log, byBalance := p.byBalance + log), true)
  {
    assert log[..0] == [] && log == [log[0]];
  }

  lemma AppliedTwiceCountsTwo()
    ensures SummaryCell(SummaryTable(ONCE + ONCE), SummaryKeyOf("u", LUNCH)) == Bucket(1000, 2)
  {
    assert (ONCE + ONCE)[..1] == ONCE && ONCE[..0] == [];
    assert SummaryTable(ONCE) == SummaryAfter(map[], HISTORY[0]);
  }

  lemma SystemRunOfThree(a1: SystemAction, a2: SystemAction, a3: SystemAction, b: int)
    ensures SystemRun([a1, a2, a3], b) == SystemNext(SystemNext(SystemRun([a1], b), a2, b), a3, b)
  {
    SystemRunAppend([a1], a2, b);
    SystemRunAppend([a1, a2], a3, b);
    assert [a1] + [a2] == [a1, a2] && [a1, a2] + [a3] == [a1, a2, a3];
  }

  lemma LostCursorRun()
    ensures var s := SystemRun([CREATE, Project(CURSOR_LOST), Project(NO_FAULTS)], 50);
      && s.world == SystemRun([CREATE], 50).world
      && s.progress == Round(Round(START, ONCE, 50, CURSOR_LOST), ONCE, 50, NO_FAULTS)
  {
    CreateOnly();
    SystemRunOfThree(CREATE, Project(CURSOR_LOST), Project(NO_FAULTS), 50);
  }

  /**
   One create and one lost cursor write: the table holds one row, its bucket counts two, and no update is
   involved.
   */
  lemma LostCursorCountsTwice()
    ensures var s := SystemRun([CREATE, Project(CURSOR_LOST), Project(NO_FAULTS)], 50);
      && CaughtUp(s) && UpdateFree(s.world.store.log) && s.world.store.table == map["t1" := CREATED]
      && SummaryCell(SummaryTable(s.progress.bySummary), SummaryKeyOf("u", LUNCH)) == Bucket(1000, 2)
  {
    CreateOnly();
    LostCursorRun();
    LostCursorRounds();
    AppliedTwiceCountsTwo();
  }

  /** A run reaches a wasted round. */
  lemma LostCursorIsWaste()
    ensures !NoWaste([CREATE, Project(CURSOR_LOST)], 50)
  {
    CreateOnly();
    LostCursorRounds();
    assert [CREATE, Project(CURSOR_LOST)][..1] == [CREATE];
  }
}
