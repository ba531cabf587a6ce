/**
 The shortest run in which an acknowledged job's row goes down again: consumer A lists and fetches, a client
 updates the transaction, consumer B syncs the new version and is acknowledged, and then A writes its merge.
 */
module StaleWrites {
  import opened Wrappers
  import opened Merge
  import opened MergeAlgebra
  import opened SheetSync
  import opened ListingChoice
  import opened SyncCoverage
  import opened SheetWrites
  import opened SyncPipeline
  import opened SyncPipelineHistory
  import opened AcknowledgedJobs
  import L = Ledger
  import Q = StreamQueue

  // ------------------------------------------------------------------ one transaction, two versions

  const ROW1 := L.Row("t", "u", PLAIN, None, 1, 0, None)
  const ROW2 := L.Row("t", "u", PLAIN, None, 2, 1, None)
  const EVENT1 := L.EventFor(1, ROW1, "create", 0)
  const EVENT2 := L.EventFor(2, ROW2, "update", 1)
  const JOB1 := L.SyncJob("u", 0, "create")
  const JOB2 := L.SyncJob("u", 1, "update")

  const CREATED := L.World(L.Store(map["t" := ROW1], [EVENT1], 2), map[], [JOB1])
  const HELD := CREATED.(held := map[1 := ROW1])
  const UPDATED := L.World(L.Store(map["t" := ROW2], [EVENT1, EVENT2], 3), map[], [JOB1, JOB2])

  const CREATE := L.DoCreate(L.CreateInput("u", PLAIN), "t", 0, L.NoFault, true)
  const LOAD := L.DoLoad(1, "t")
  const UPDATE := L.DoUpdate(1, PLAIN, 1, L.NoFault, true)

  lemma LedgerSteps()
    ensures L.Next(L.INITIAL, CREATE) == CREATED && L.Next(CREATED, LOAD) == HELD && L.Next(HELD, UPDATE) == UPDATED
  {
    assert HELD.held - {1} == map[];
  }

  // ------------------------------------------------------------------ the stream

  /** The user "u" has one connection, to the sheet "s", and the payloads of both jobs are read back. */
  predicate OneConnection(env: Setting)
  {
    && TextIsRead(env, PayloadOf(JOB1)) && TextIsRead(env, PayloadOf(JOB2))
    && env.connections == map["c" := Connection("u", "s", None)]
  }

  /** There is such a setting. */
  lemma SomeSetting() returns (env: Setting)
    ensures OneConnection(env)
  {
    env := Setting(map["c" := Connection("u", "s", None)],
                   (p: SyncJobPayload) => if p == PayloadOf(JOB1) then "1" else "2",
                   (t: string) => Some(PayloadOf(if t == "1" then JOB1 else JOB2)));
  }

  ghost function Group1(env: Setting): Q.Group { Q.Next(Q.EMPTY_GROUP, Q.Enqueue(MessageOf(env, JOB1))) }

  ghost function Group2(env: Setting): Q.Group { Q.Next(Group1(env), Q.Read("A")) }

  ghost function Group3(env: Setting): Q.Group { Q.Next(Group2(env), Q.Enqueue(MessageOf(env, JOB2))) }

  ghost function Group4(env: Setting): Q.Group { Q.Next(Group3(env), Q.Read("B")) }

  ghost function Group5(env: Setting): Q.Group { Q.Next(Group4(env), Q.Handle("B", true, false)) }

  lemma FirstEntry(env: Setting)
    requires OneConnection(env)
    ensures |Group2(env).entries| == 1 && Q.InHand(Group2(env), "A") == [0]
    ensures PayloadAt(env, Group2(env), 0) == Some(PayloadOf(JOB1))
  {
    EncodedPayloadIsRead(env, JOB1, Q.EMPTY_GROUP);
    assert Q.Span(0, 1) == [0];
  }

  lemma SecondEntry(env: Setting)
    requires OneConnection(env)
    ensures |Group3(env).entries| == 2 && Group4(env).entries == Group3(env).entries
    ensures Q.InHand(Group4(env), "B") == [1]
    ensures PayloadAt(env, Group4(env), 0) == Some(PayloadOf(JOB1))
    ensures PayloadAt(env, Group4(env), 1) == Some(PayloadOf(JOB2))
  {
    FirstEntry(env);
    EncodedPayloadIsRead(env, JOB2, Group2(env));
    PayloadStays(env, Group2(env), Group3(env), 0);
    assert Q.InHand(Group3(env), "B") == [];
    assert Q.Span(1, 2) == [1];
  }

  lemma SecondEntryIsAcked(env: Setting)
    requires OneConnection(env)
    ensures 1 in Group5(env).acked
  {
    SecondEntry(env);
  }

  // ------------------------------------------------------------------ the sheet

  const SHEET1: RowMap := map["t" := LocalRow(EVENT1)]
  const SHEET2: RowMap := map["t" := LocalRow(EVENT2)]

  lemma LocalMapOfOne(e: L.Event)
    ensures LocalMap([e]) == map[e.entityId := LocalRow(e)]
  {
    var rows := LocalRows([e]);
    assert |rows| == 1 && rows[0] == LocalRow(e) && rows[..0] == [];
    assert LastLocal([]) == map[];
  }

  /** Writing a one-row sheet over an empty one, or over another version of the row, leaves that one row. */
  lemma OneRowWritten(sheets: Sheets, sheet: RowMap, target: RowMap)
    requires SheetOf(sheets, "s") == sheet && sheet.Keys <= {"t"} && target.Keys == {"t"} && Keyed(target)
    ensures WriteBack(sheets, "s", target, NoSyncFault) == SyncResult(sheets["s" := target], true)
  {
    var rows := Rows(target);
    RowsEnumerate(target);
    assert HasRow(rows, "t");
    UpsertMeans(sheet, rows, target);
    assert Upsert(sheet, rows) == target;
  }

  lemma ListingA()
    ensures Listing([EVENT1], "u", 0, EVENT_LIMIT, [EVENT1])
  {
  }

  lemma ListingB()
    ensures Listing([EVENT1, EVENT2], "u", 1, EVENT_LIMIT, [EVENT2])
  {
  }

  // ------------------------------------------------------------------ the run

  const WORK_A := Work(0, CREATED.store, ["c"], map[], Fetched([EVENT1], [EVENT1], map[], 0))
  const WORK_B := Work(1, UPDATED.store, ["c"], map[], Fetched([EVENT1, EVENT2], [EVENT2], map[], 0))

  /** A has listed and fetched the first version. */
  function AReady(g: Q.Group): State
  {
    State(CREATED, g, map[], map[], map["A" := WORK_A], map[])
  }

  /** The transaction has been updated, and B has listed and fetched the second version. */
  function BReady(g: Q.Group): State
  {
    State(UPDATED, g, map[], map[], map["A" := WORK_A, "B" := WORK_B], map[])
  }

  /** B has written and is acknowledged. */
  function BDone(g: Q.Group): State
  {
    State(UPDATED, g, map["s" := SHEET2], map["s" := 1], map["A" := WORK_A], map[1 := OneDone(WORK_B)])
  }

  lemma TargetsOfC(env: Setting, since: int)
    requires OneConnection(env)
    ensures AreTargets(env.connections, SyncJobPayload("u", "", since), ["c"])
    ensures Owns(env.connections, "u", "c") && SheetIdOf(env, "c") == "s"
  {
  }

  /** A consumer that holds an entry begins, lists and fetches the sheet that nobody has written. */
  lemma PrepareOne(env: Setting, s: State, c: string, m: nat, since: int, events: seq<L.Event>)
    requires OneConnection(env) && s.group.delivered <= |s.group.entries| && Q.InHand(s.group, c) == [m]
    requires c !in s.working && PayloadAt(env, s.group, m) == Some(SyncJobPayload("u", "", since))
    requires s.sheets == map[] && s.writes == map[] && Listing(s.world.store.log, "u", since, EVENT_LIMIT, events)
    ensures var s1 := Next(env, s, Begin(c, Some(["c"])));
      var s2 := Next(env, s1, List(c, events, false));
      Next(env, s2, Fetch(c, false)) == s.(working := s.working[c :=
        Work(m, s.world.store, ["c"], map[], Fetched(s.world.store.log, events, map[], 0))])
  {
    TargetsOfC(env, since);
    var k := Work(m, s.world.store, ["c"], map[], Resting);
    var s1 := s.(working := s.working[c := k]);
    assert Next(env, s, Begin(c, Some(["c"]))) == s1;
    var s2 := Staged(s1, c, Listed(s.world.store.log, events));
    assert Next(env, s1, List(c, events, false)) == s2;
    assert s2.working == s.working[c := k.(stage := Listed(s.world.store.log, events))];
  }

  /** A run goes on with these three steps. */
  lemma PrepareRun(env: Setting, t0: Trace, c: string, m: nat, since: int, events: seq<L.Event>) returns (t: Trace)
    requires OneConnection(env) && IsRun(env, t0) && End(t0).group.delivered <= |End(t0).group.entries|
    requires Q.InHand(End(t0).group, c) == [m] && c !in End(t0).working
    requires PayloadAt(env, End(t0).group, m) == Some(SyncJobPayload("u", "", since))
    requires End(t0).sheets == map[] && End(t0).writes == map[]
    requires Listing(End(t0).world.store.log, "u", since, EVENT_LIMIT, events)
    ensures IsRun(env, t) && |t.actions| == |t0.actions| + 3 && t0.states <= t.states
    ensures var log := End(t0).world.store.log;
      End(t) == End(t0).(working := End(t0).working[c :=
        Work(m, End(t0).world.store, ["c"], map[], Fetched(log, events, map[], 0))])
  {
    PrepareOne(env, End(t0), c, m, since, events);
    t := RunOn(env, t0, Begin(c, Some(["c"])));
    t := RunOn(env, t, List(c, events, false));
    t := RunOn(env, t, Fetch(c, false));
  }

  lemma PrepareA(env: Setting) returns (t: Trace)
    requires OneConnection(env)
    ensures IsRun(env, t) && |t.actions| == 5 && End(t) == AReady(Group2(env))
    ensures End(t).group.delivered <= |End(t).group.entries|
  {
    t := Trace([], [BOOT]);
    LedgerSteps();
    FirstEntry(env);
    t := RunOn(env, t, Client(CREATE));
    t := RunOn(env, t, Read("A"));
    var s := End(t);
    assert s == State(CREATED, Group2(env), map[], map[], map[], map[]);
    ListingA();
    t := PrepareRun(env, t, "A", 0, 0, [EVENT1]);
  }

  /** Client 1 reads the transaction. */
  lemma LoadRow(env: Setting, t0: Trace, g: Q.Group) returns (t: Trace)
    requires IsRun(env, t0) && |t0.actions| == 5 && End(t0) == AReady(g) && g.delivered <= |g.entries|
    ensures IsRun(env, t) && |t.actions| == 6
    ensures End(t) == State(HELD, g, map[], map[], map["A" := WORK_A], map[])
  {
    LedgerSteps();
    t := RunOn(env, t0, Client(LOAD));
  }

  /** It updates the transaction, and its commit queues the job of the second version. */
  lemma UpdateRow(env: Setting, t0: Trace, g: Q.Group) returns (t: Trace)
    requires OneConnection(env) && IsRun(env, t0) && |t0.actions| == 6 && g.delivered <= |g.entries|
    requires End(t0) == State(HELD, g, map[], map[], map["A" := WORK_A], map[])
    ensures IsRun(env, t) && |t.actions| == 7 && t0.states <= t.states
    ensures var g' := Q.Next(g, Q.Enqueue(MessageOf(env, JOB2)));
      End(t) == State(UPDATED, g', map[], map[], map["A" := WORK_A], map[])
    ensures End(t).group.delivered <= |End(t).group.entries|
    ensures QueuedAt(env, t, 6, EVENT2)
  {
    LedgerSteps();
    var e := CommitQueues(env, End(t0), UPDATE);
    assert [EVENT1] + [EVENT2] == UPDATED.store.log;
    t := RunOn(env, t0, Client(UPDATE));
  }

  lemma PrepareB(env: Setting, t0: Trace) returns (t: Trace)
    requires OneConnection(env) && IsRun(env, t0) && |t0.actions| == 7
    requires End(t0) == State(UPDATED, Group3(env), map[], map[], map["A" := WORK_A], map[])
    requires End(t0).group.delivered <= |End(t0).group.entries|
    ensures IsRun(env, t) && |t.actions| == 11 && End(t) == BReady(Group4(env)) && t0.states <= t.states
    ensures End(t).group.delivered <= |End(t).group.entries|
  {
    SecondEntry(env);
    t := RunOn(env, t0, Read("B"));
    var s := End(t);
    assert s == State(UPDATED, Group4(env), map[], map[], map["A" := WORK_A], map[]);
    ListingB();
    t := PrepareRun(env, t, "B", 1, 1, [EVENT2]);
  }

  /** A consumer that fetched the empty sheet and listed one event writes that event's row over what is there. */
  lemma OneWrite(env: Setting, s: State, c: string, e: L.Event)
    requires OneConnection(env) && s.group.delivered <= |s.group.entries| && ReadyToWrite(s, c)
    requires s.working[c].todo == ["c"] && s.working[c].stage.events == [e] && s.working[c].stage.sheet == map[]
    requires e.entityId == "t" && SheetOf(s.sheets, "s").Keys <= {"t"}
    ensures MergeOf(s, c) == map["t" := LocalRow(e)]
    ensures Next(env, s, Write(c, NoSyncFault)) ==
      s.(sheets := s.sheets["s" := map["t" := LocalRow(e)]], writes := s.writes["s" := WritesTo(s, "s") + 1],
         working := s.working[c := OneDone(s.working[c])])
  {
    TargetsOfC(env, 0);
    LocalMapOfOne(e);
    OneRowWritten(s.sheets, SheetOf(s.sheets, "s"), MergeOf(s, c));
  }

  /** What an acknowledged finish leads to. */
  lemma FinishSucceeds(env: Setting, s: State, c: string)
    requires s.group.delivered <= |s.group.entries| && c in s.working && s.working[c].todo == []
    ensures Next(env, s, Finish(c, false)) ==
      s.(group := Q.Next(s.group, Q.Handle(c, true, false)), working := s.working - {c},
         finished := s.finished[s.working[c].entry := s.working[c]])
  {
  }

  lemma TwoWorkers(a: Work, b: Work, b': Work)
    ensures map["A" := a, "B" := b]["B" := b'] == map["A" := a, "B" := b']
    ensures map["A" := a, "B" := b] - {"B"} == map["A" := a]
  {
  }

  function BWritten(g: Q.Group): State
  {
    State(UPDATED, g, map["s" := SHEET2], map["s" := 1], map["A" := WORK_A, "B" := OneDone(WORK_B)], map[])
  }

  /** B writes the second version. */
  lemma WriteB(env: Setting, g: Q.Group)
    requires OneConnection(env) && g.delivered <= |g.entries|
    ensures Next(env, BReady(g), Write("B", NoSyncFault)) == BWritten(g)
  {
    OneWrite(env, BReady(g), "B", EVENT2);
    TwoWorkers(WORK_A, WORK_B, OneDone(WORK_B));
  }

  lemma AckB(env: Setting, g: Q.Group)
    requires g.delivered <= |g.entries|
    ensures Next(env, BWritten(g), Finish("B", false)) == BDone(Q.Next(g, Q.Handle("B", true, false)))
  {
    FinishSucceeds(env, BWritten(g), "B");
    TwoWorkers(WORK_A, OneDone(WORK_B), WORK_B);
  }

  lemma FinishB(env: Setting, t0: Trace) returns (t: Trace)
    requires OneConnection(env) && IsRun(env, t0) && |t0.actions| == 11 && End(t0) == BReady(Group4(env))
    requires End(t0).group.delivered <= |End(t0).group.entries|
    ensures IsRun(env, t) && |t.actions| == 13 && End(t) == BDone(Group5(env)) && t0.states <= t.states
    ensures End(t).group.delivered <= |End(t).group.entries|
  {
    WriteB(env, Group4(env));
    AckB(env, Group4(env));
    t := RunOn(env, t0, Write("B", NoSyncFault));
    t := RunOn(env, t, Finish("B", false));
  }

  lemma FirstVersionIsOvertaken()
    ensures Overtaken(SHEET2, SHEET1, WrittenRows(SHEET1, NoSyncFault))
  {
    LocalRowRank(EVENT1);
    LocalRowRank(EVENT2);
    RowsEnumerate(SHEET1);
    assert Overtakes(SHEET2, SHEET1, WrittenRows(SHEET1, NoSyncFault), "t");
  }

  /** A writes what it has merged from the first version and the empty sheet it fetched. */
  lemma WriteA(env: Setting, g: Q.Group)
    requires OneConnection(env) && g.delivered <= |g.entries|
    ensures WritesOvertaken(env, BDone(g), Write("A", NoSyncFault))
    ensures Next(env, BDone(g), Write("A", NoSyncFault)).sheets == map["s" := SHEET1]
    ensures Next(env, BDone(g), Write("A", NoSyncFault)).world == UPDATED
  {
    TargetsOfC(env, 0);
    OneWrite(env, BDone(g), "A", EVENT1);
    FirstVersionIsOvertaken();
    assert map["s" := SHEET2]["s" := SHEET1] == map["s" := SHEET1];
  }

  lemma QueuedStays(env: Setting, t: Trace, t': Trace, q: int, e: L.Event)
    requires QueuedAt(env, t, q, e) && t.states <= t'.states && |t'.states| == |t'.actions| + 1
    ensures QueuedAt(env, t', q, e) && t'.states[q] == t.states[q]
  {
    assert t'.states[q + 1] == t.states[q + 1];
  }

  /** A run of thirteen steps, from creating the transaction to B's acknowledgement. */
  lemma UpToAcknowledgement(env: Setting) returns (t: Trace)
    requires OneConnection(env)
    ensures IsRun(env, t) && |t.actions| == 13 && End(t) == BDone(Group5(env))
    ensures End(t).group.delivered <= |End(t).group.entries|
    ensures QueuedAt(env, t, 6, EVENT2) && |t.states[6].group.entries| == 1
  {
    t := PrepareA(env);
    FirstEntry(env);
    t := LoadRow(env, t, Group2(env));
    var t7 := UpdateRow(env, t, Group2(env));
    var t11 := PrepareB(env, t7);
    t := FinishB(env, t11);
    QueuedStays(env, t7, t, 6, EVENT2);
  }

  lemma FirstVersionIsBehind(env: Setting, s: State)
    requires OneConnection(env) && s.sheets == map["s" := SHEET1]
    ensures !OnAllSheets(env, s, "u", "t", 2)
  {
    TargetsOfC(env, 0);
    LocalRowRank(EVENT1);
    assert !RowAtLeast(s.sheets, SheetIdOf(env, "c"), "t", 2);
  }

  lemma SecondVersionFits()
    ensures Fits([EVENT1, EVENT2], "u", 1, EVENT_LIMIT, 2)
  {
    var s := UpTo(SelectedSet([EVENT1, EVENT2], "u", 1), 2);
    assert s == {EVENT2};
  }

  /** The run goes on with A's write. */
  lemma WriteOvertaken(env: Setting, t0: Trace, g: Q.Group) returns (t: Trace)
    requires OneConnection(env) && IsRun(env, t0) && End(t0) == BDone(g) && g.delivered <= |g.entries|
    ensures IsRun(env, t) && |t.actions| == |t0.actions| + 1 && t0.states <= t.states && !NothingOvertaken(env, t)
    ensures End(t).world == UPDATED && End(t).sheets == map["s" := SHEET1]
  {
    WriteA(env, g);
    t := RunOn(env, t0, Write("A", NoSyncFault));
    assert t.states[|t0.actions|] == End(t0);
    assert WritesOvertaken(env, t.states[|t0.actions|], t.actions[|t0.actions|]);
  }

  /**
   In this run the job of the second version is queued by step 6 and acknowledged in state 13, its event fits
   under the limit, and at the end the sheet has the first version: A's write was overtaken.
   */
  lemma StaleWriteUndoesAcknowledged(env: Setting) returns (t: Trace)
    requires OneConnection(env)
    ensures IsRun(env, t) && |t.actions| == 14 && !NothingOvertaken(env, t)
    ensures QueuedAt(env, t, 6, EVENT2) && |t.states[6].group.entries| in t.states[13].group.acked
    ensures Fits(t.states[13].world.store.log, "u", 1, EVENT_LIMIT, 2) && End(t).world == UPDATED
    ensures !OnAllSheets(env, End(t), "u", "t", 2)
  {
    var t13 := UpToAcknowledgement(env);
    SecondEntryIsAcked(env);
    t := WriteOvertaken(env, t13, Group5(env));
    QueuedStays(env, t13, t, 6, EVENT2);
    SecondVersionFits();
    FirstVersionIsBehind(env, End(t));
  }
}
