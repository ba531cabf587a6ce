/**
 What every run of the pipeline keeps, however its jobs overlap: soundness of the jobs in progress, and of
 the finished ones.
 */
module SyncPipelineHistory {
  import opened Wrappers
  import opened Merge
  import opened MergeAlgebra
  import opened SheetSync
  import opened ListingChoice
  import opened SyncCoverage
  import opened SheetWrites
  import opened SyncPipeline
  import L = Ledger
  import H = LedgerHistory
  import Q = StreamQueue

  // ------------------------------------------------------------------ the ledger that a job began with

  /** Each row of an earlier table is in the log as an event. */
  ghost predicate Recorded(log: seq<L.Event>, began: H.Table)
  {
    forall id :: id in began ==> RowRecorded(log, id, began[id])
  }

  predicate Records(e: L.Event, id: string, row: L.Row)
  {
    e.entityId == id && e.version == row.version && e.userId == row.userId && e.entityType == "transaction"
  }

  ghost predicate RowRecorded(log: seq<L.Event>, id: string, row: L.Row)
  {
    exists e :: e in log && Records(e, id, row)
  }

  lemma TableIsRecorded(w: L.World)
    requires H.Inv(w)
    ensures Recorded(w.store.log, w.store.table)
  {
    forall id | id in w.store.table ensures RowRecorded(w.store.log, id, w.store.table[id]) {
      var k := H.LastOf(w.store.log, id);
      H.VersionBound(w.store.log, k);
      assert w.store.log[k] in w.store.log && Records(w.store.log[k], id, w.store.table[id]);
    }
  }

  lemma StillInLog(log: seq<L.Event>, log': seq<L.Event>, e: L.Event)
    requires log <= log' && e in log
    ensures e in log'
  {
    var i :| 0 <= i < |log| && log[i] == e;
    assert log'[i] == e;
  }

  /** The sheet holds every row that was due when the job began, unless the limit cut it off in the log read. */
  ghost predicate Reached(read: seq<L.Event>, sheets: Sheets, p: SyncJobPayload, began: H.Table, sheetId: string)
  {
    forall id :: IsDue(began, p.userId, p.sinceVersion, id) &&
      Fits(read, p.userId, p.sinceVersion, EVENT_LIMIT, began[id].version)
      ==> RowAtLeast(sheets, sheetId, id, began[id].version)
  }

  /** A successful write reaches everything that was due when its job began, however stale its merge. */
  lemma SuccessReaches(read: seq<L.Event>, events: seq<L.Event>, fetched: RowMap, sheets: Sheets,
                       p: SyncJobPayload, began: H.Table, sheetId: string, fault: SyncFault)
    requires Keyed(fetched) && Recorded(read, began)
    requires Listing(read, p.userId, p.sinceVersion, EVENT_LIMIT, events)
    requires WriteBack(sheets, sheetId, Join(LocalMap(events), fetched), fault).ok
    ensures Reached(read, WriteBack(sheets, sheetId, Join(LocalMap(events), fetched), fault).sheets, p, began, sheetId)
  {
    var sheets' := WriteBack(sheets, sheetId, Join(LocalMap(events), fetched), fault).sheets;
    forall id | IsDue(began, p.userId, p.sinceVersion, id) &&
      Fits(read, p.userId, p.sinceVersion, EVENT_LIMIT, began[id].version)
      ensures RowAtLeast(sheets', sheetId, id, began[id].version)
    {
      assert RowRecorded(read, id, began[id]);
      var e :| e in read && Records(e, id, began[id]);
      FittingIsListed(read, p.userId, p.sinceVersion, EVENT_LIMIT, e, events);
      SuccessReachesEvent(sheets, sheetId, events, fetched, fault, e);
    }
  }

  lemma ReachedStays(read: seq<L.Event>, sheets: Sheets, sheets': Sheets,
                     p: SyncJobPayload, began: H.Table, sheetId: string)
    requires Rise(sheets, sheets') && Reached(read, sheets, p, began, sheetId)
    ensures Reached(read, sheets', p, began, sheetId)
  {
    forall id | IsDue(began, p.userId, p.sinceVersion, id) &&
      Fits(read, p.userId, p.sinceVersion, EVENT_LIMIT, began[id].version)
      ensures RowAtLeast(sheets', sheetId, id, began[id].version)
    {
      assert RowAtLeast(sheets, sheetId, id, began[id].version);
    }
  }

  // ------------------------------------------------------------------ what every run keeps

  predicate IsTarget(env: Setting, p: SyncJobPayload, id: string)
  {
    if p.connectionId != "" then id == p.connectionId else Owns(env.connections, p.userId, id)
  }

  /** A log that was read after the job began, and not after the present one. */
  predicate ReadSince(read: seq<L.Event>, k: Work, log: seq<L.Event>)
  {
    k.began.log <= read <= log
  }

  /** What has been listed and fetched for the connection at hand. */
  ghost predicate StageOk(env: Setting, s: State, p: SyncJobPayload, k: Work)
  {
    !k.stage.Resting? ==>
      && k.todo != [] && Owns(env.connections, p.userId, k.todo[0])
      && ReadSince(k.stage.read, k, s.world.store.log)
      && Listing(k.stage.read, p.userId, p.sinceVersion, EVENT_LIMIT, k.stage.events)
      && (k.stage.Fetched? ==> SheetOk(env, s, k))
  }

  /** The fetched rows sit under their ids; if nobody has written the sheet since, they are what it still holds. */
  predicate SheetOk(env: Setting, s: State, k: Work)
    requires k.stage.Fetched? && k.todo != []
  {
    && Keyed(k.stage.sheet)
    && k.stage.writes <= WritesTo(s, SheetIdOf(env, k.todo[0]))
    && (k.stage.writes == WritesTo(s, SheetIdOf(env, k.todo[0])) ==>
        k.stage.sheet == SheetOf(s.sheets, SheetIdOf(env, k.todo[0])))
  }

  /** A job in progress or finished: its payload is known, no target is forgotten, and each log read is a recent one. */
  ghost predicate WorkOk(env: Setting, s: State, k: Work)
  {
    && k.began.log <= s.world.store.log && Recorded(k.began.log, k.began.table)
    && (forall id :: id in k.done ==> ReadSince(k.done[id], k, s.world.store.log))
    && match PayloadAt(env, s.group, k.entry)
       case None => false
       case Some(p) =>
         && (forall id :: id in k.done ==> Owns(env.connections, p.userId, id))
         && (forall id :: IsTarget(env, p, id) ==> id in k.todo || id in k.done)
         && StageOk(env, s, p, k)
  }

  /** The consumer works on the entry at the head of its hand. */
  predicate InHandOf(s: State, c: string)
    requires c in s.working
  {
    Q.InHand(s.group, c) != [] && Q.InHand(s.group, c)[0] == s.working[c].entry
  }

  ghost predicate FinishedOk(env: Setting, s: State, m: nat)
    requires m in s.finished
  {
    s.finished[m].entry == m && s.finished[m].todo == [] && Q.HandledEntry(s.group, m) && WorkOk(env, s, s.finished[m])
  }

  ghost predicate Inv(env: Setting, s: State)
  {
    && H.Inv(s.world) && Q.Inv(s.group) && KeyedSheets(s.sheets)
    && (forall c :: c in s.working ==> WorkOk(env, s, s.working[c]) && InHandOf(s, c))
    && (forall m :: m in s.finished ==> FinishedOk(env, s, m))
    && (forall m :: m in s.group.acked ==> m in s.finished)
  }

  /** A later state: log, stream and handled entries have only grown, and a sheet not written since is unchanged. */
  ghost predicate Onward(s: State, s': State)
  {
    && s.world.store.log <= s'.world.store.log
    && s.group.entries <= s'.group.entries
    && (forall m :: Q.HandledEntry(s.group, m) ==> Q.HandledEntry(s'.group, m))
    && (forall sheetId :: WritesTo(s, sheetId) <= WritesTo(s', sheetId))
    && (forall sheetId :: WritesTo(s, sheetId) == WritesTo(s', sheetId) ==>
        SheetOf(s.sheets, sheetId) == SheetOf(s'.sheets, sheetId))
  }

  lemma PayloadStays(env: Setting, g: Q.Group, g': Q.Group, m: nat)
    requires g.entries <= g'.entries && PayloadAt(env, g, m).Some?
    ensures PayloadAt(env, g', m) == PayloadAt(env, g, m)
  {
  }

  lemma WorkStaysOk(env: Setting, s: State, s': State, k: Work)
    requires Onward(s, s') && WorkOk(env, s, k)
    ensures WorkOk(env, s', k)
  {
    PayloadStays(env, s.group, s'.group, k.entry);
  }

  /** A step that moves onward keeps the invariant if the jobs it adds are sound. */
  lemma OnwardKeepsInv(env: Setting, s: State, s': State)
    requires Inv(env, s) && Onward(s, s') && H.Inv(s'.world) && Q.Inv(s'.group) && KeyedSheets(s'.sheets)
    requires forall c :: c in s'.working ==>
      InHandOf(s', c) && ((c in s.working && s'.working[c] == s.working[c]) || WorkOk(env, s', s'.working[c]))
    requires forall m :: m in s'.finished ==>
      (m in s.finished && s'.finished[m] == s.finished[m]) || FinishedOk(env, s', m)
    requires forall m :: m in s'.group.acked ==> m in s'.finished
    ensures Inv(env, s')
  {
    forall c | c in s'.working ensures WorkOk(env, s', s'.working[c]) {
      if c in s.working && s'.working[c] == s.working[c] {
        WorkStaysOk(env, s, s', s.working[c]);
      }
    }
    forall m | m in s'.finished ensures FinishedOk(env, s', m) {
      if m in s.finished && s'.finished[m] == s.finished[m] {
        assert FinishedOk(env, s, m);
        WorkStaysOk(env, s, s', s.finished[m]);
      }
    }
  }

  // ------------------------------------------------------------------ steps that leave the sheets alone

  lemma LedgerStepExtendsLog(w: L.World, a: L.Action)
    ensures w.store.log <= L.Next(w, a).store.log
  {
  }

  /** Adding an entry touches nobody's hand and handles nothing. */
  lemma EnqueueIsQuiet(g: Q.Group, msg: Q.Message)
    requires g.delivered <= |g.entries|
    ensures var g' := Q.Next(g, Q.Enqueue(msg));
      && g.entries <= g'.entries && |g'.entries| == |g.entries| + 1 && g'.acked == g.acked && g'.handled == g.handled
      && forall c :: Q.InHand(g', c) == Q.InHand(g, c)
  {
  }

  /** More events, more entries, or fewer consumers: nobody's hand, no sheet and no finished job is touched. */
  lemma QuietStepKeepsInv(env: Setting, s: State, s': State)
    requires Inv(env, s) && H.Inv(s'.world) && Q.Inv(s'.group)
    requires s.world.store.log <= s'.world.store.log && s.group.entries <= s'.group.entries
    requires s'.sheets == s.sheets && s'.writes == s.writes && s'.finished == s.finished
    requires s'.group.acked == s.group.acked && s'.group.handled == s.group.handled
    requires forall c :: c in s'.working ==>
      c in s.working && s'.working[c] == s.working[c] && Q.InHand(s'.group, c) == Q.InHand(s.group, c)
    ensures Inv(env, s')
  {
    forall m | Q.HandledEntry(s.group, m) ensures Q.HandledEntry(s'.group, m) {
      var i :| 0 <= i < |s.group.handled| && s.group.handled[i].entry == m;
      assert s'.group.handled[i].entry == m;
    }
    OnwardKeepsInv(env, s, s');
  }

  lemma CommitKeepsInv(env: Setting, s: State, a: L.Action)
    requires Inv(env, s)
    ensures Inv(env, Commit(env, s, a))
  {
    var w := L.Next(s.world, a);
    H.NextKeepsInv(s.world, a);
    LedgerStepExtendsLog(s.world, a);
    if |w.jobs| > |s.world.jobs| {
      var msg := MessageOf(env, w.jobs[|w.jobs| - 1]);
      Q.NextKeepsInv(s.group, Q.Enqueue(msg));
      EnqueueIsQuiet(s.group, msg);
    }
    QuietStepKeepsInv(env, s, Commit(env, s, a));
  }

  lemma ClientKeepsInv(env: Setting, s: State, a: L.Action)
    requires Inv(env, s)
    ensures Inv(env, Next(env, s, Client(a)))
  {
    CommitKeepsInv(env, s, a);
  }

  lemma PublishKeepsInv(env: Setting, s: State, msg: Q.Message)
    requires Inv(env, s)
    ensures Inv(env, Next(env, s, Publish(msg)))
  {
    Q.NextKeepsInv(s.group, Q.Enqueue(msg));
    EnqueueIsQuiet(s.group, msg);
    QuietStepKeepsInv(env, s, Next(env, s, Publish(msg)));
  }

  /** Reading changes no hand that is not empty, handles nothing and acknowledges nothing. */
  lemma ReadIsQuiet(g: Q.Group, c: string)
    requires g.delivered <= |g.entries|
    ensures var g' := Q.Next(g, Q.Read(c));
      && g'.entries == g.entries && g'.acked == g.acked && g'.handled == g.handled
      && forall d :: Q.InHand(g, d) != [] ==> Q.InHand(g', d) == Q.InHand(g, d)
  {
  }

  /** A consumer that works on an entry still has it in hand, so its read does nothing. */
  lemma ReadKeepsInv(env: Setting, s: State, c: string)
    requires Inv(env, s)
    ensures Inv(env, Next(env, s, Read(c)))
  {
    Q.NextKeepsInv(s.group, Q.Read(c));
    ReadIsQuiet(s.group, c);
    forall d | d in s.working ensures Q.InHand(s.group, d) != [] {
      assert InHandOf(s, d);
    }
    QuietStepKeepsInv(env, s, s.(group := Q.Next(s.group, Q.Read(c))));
  }

  lemma StopIsQuiet(g: Q.Group, c: string)
    requires g.delivered <= |g.entries|
    ensures var g' := Q.Next(g, Q.Stop(c));
      && g'.entries == g.entries && g'.acked == g.acked && g'.handled == g.handled
      && forall d :: d != c ==> Q.InHand(g', d) == Q.InHand(g, d)
  {
  }

  /** A crashed consumer has neither work nor entries; all else is as it was. */
  lemma CrashLosesWork(env: Setting, s: State, c: string)
    requires s.group.delivered <= |s.group.entries|
    ensures var s' := Next(env, s, Crash(c));
      && s'.working == s.working - {c} && Q.InHand(s'.group, c) == [] && s'.group.pending == s.group.pending
      && s'.world == s.world && s'.sheets == s.sheets && s'.finished == s.finished
  {
  }

  /** The consumer has left its job; nothing was acknowledged, finished or written. */
  ghost predicate LeftAlone(s: State, s': State, c: string)
  {
    && s'.working == s.working - {c} && s'.group.acked == s.group.acked && s'.group.pending == s.group.pending
    && s'.finished == s.finished && s'.sheets == s.sheets && s'.world == s.world
  }

  lemma GiveUpLeavesJob(s: State, c: string)
    requires s.group.delivered <= |s.group.entries|
    ensures LeftAlone(s, GiveUp(s, c), c)
  {
  }

  /** A lookup, fetch or write that fails before it writes ends the job without acknowledging it. */
  lemma FailedLookupLeavesJob(env: Setting, s: State, c: string, events: seq<L.Event>)
    requires Inv(env, s) && c in s.working && s.working[c].todo != [] && s.working[c].stage.Resting?
    ensures LeftAlone(s, ListedNext(env, s, c, events, true), c)
  {
    assert WorkOk(env, s, s.working[c]);
    GiveUpLeavesJob(s, c);
  }

  lemma FailedFetchLeavesJob(env: Setting, s: State, c: string)
    requires s.group.delivered <= |s.group.entries|
    requires c in s.working && s.working[c].todo != [] && s.working[c].stage.Listed?
    ensures LeftAlone(s, FetchedNext(env, s, c, true), c)
  {
    GiveUpLeavesJob(s, c);
  }

  lemma FailedWriteLeavesJob(env: Setting, s: State, c: string)
    requires s.group.delivered <= |s.group.entries| && ReadyToWrite(s, c)
    ensures LeftAlone(s, WrittenNext(env, s, c, BeforeWrite), c)
  {
    GiveUpLeavesJob(s, c);
  }

  lemma CrashKeepsInv(env: Setting, s: State, c: string)
    requires Inv(env, s)
    ensures Inv(env, Next(env, s, Crash(c)))
  {
    Q.NextKeepsInv(s.group, Q.Stop(c));
    StopIsQuiet(s.group, c);
    QuietStepKeepsInv(env, s, s.(group := Q.Next(s.group, Q.Stop(c)), working := s.working - {c}));
  }

  /** Handling touches one hand, handles its head and acknowledges at most that. */
  lemma HandleTouches(g: Q.Group, c: string, ok: bool, ackLost: bool)
    requires g.delivered <= |g.entries|
    ensures var g' := Q.Next(g, Q.Handle(c, ok, ackLost));
      && g'.entries == g.entries
      && (forall d :: d != c ==> Q.InHand(g', d) == Q.InHand(g, d))
      && (forall m :: m in g'.acked ==> m in g.acked || (ok && Q.InHand(g, c) != [] && m == Q.InHand(g, c)[0]))
      && (forall m :: Q.HandledEntry(g, m) ==> Q.HandledEntry(g', m))
      && (Q.InHand(g, c) != [] ==> Q.HandledEntry(g', Q.InHand(g, c)[0]))
  {
    var g' := Q.Next(g, Q.Handle(c, ok, ackLost));
    if Q.InHand(g, c) != [] {
      assert g'.handled[|g.handled|].entry == Q.InHand(g, c)[0];
    }
    forall m | Q.HandledEntry(g, m) ensures Q.HandledEntry(g', m) {
      var i :| 0 <= i < |g.handled| && g.handled[i].entry == m;
      assert g'.handled[i].entry == m;
    }
  }

  lemma GiveUpKeepsInv(env: Setting, s: State, c: string)
    requires Inv(env, s)
    ensures Inv(env, GiveUp(s, c))
  {
    Q.NextKeepsInv(s.group, Q.Handle(c, false, false));
    HandleTouches(s.group, c, false, false);
    OnwardKeepsInv(env, s, GiveUp(s, c));
  }

  /** A consumer's work is replaced by other sound work on the entry in its hand. */
  lemma NewWorkKeepsInv(env: Setting, s: State, c: string, k: Work)
    requires Inv(env, s) && Q.InHand(s.group, c) != [] && Q.InHand(s.group, c)[0] == k.entry
    requires WorkOk(env, s.(working := s.working[c := k]), k)
    ensures Inv(env, s.(working := s.working[c := k]))
  {
    OnwardKeepsInv(env, s, s.(working := s.working[c := k]));
  }

  /** Work that begins forgets no target and records the present ledger. */
  lemma NewWorkIsOk(env: Setting, s: State, m: nat, p: SyncJobPayload, todo: seq<string>)
    requires Inv(env, s) && PayloadAt(env, s.group, m) == Some(p) && AreTargets(env.connections, p, todo)
    ensures WorkOk(env, s, Work(m, s.world.store, todo, map[], Resting))
  {
    TableIsRecorded(s.world);
  }

  lemma BegunKeepsInv(env: Setting, s: State, c: string, ids: Option<seq<string>>)
    requires Inv(env, s)
    ensures Inv(env, Next(env, s, Begin(c, ids)))
  {
    GiveUpKeepsInv(env, s, c);
    var s' := Begun(env, s, c, ids);
    if s' != s && s' != GiveUp(s, c) {
      var k := s'.working[c];
      NewWorkIsOk(env, s, k.entry, PayloadAt(env, s.group, k.entry).value, k.todo);
      WorkIgnoresRecord(env, s, c, k);
      NewWorkKeepsInv(env, s, c, k);
    }
  }

  /** A consumer's work moves to a stage that is sound. */
  lemma StagedKeepsInv(env: Setting, s: State, c: string, stage: Stage)
    requires Inv(env, s) && c in s.working && PayloadAt(env, s.group, s.working[c].entry).Some?
    requires StageOk(env, s, PayloadAt(env, s.group, s.working[c].entry).value, s.working[c].(stage := stage))
    ensures Inv(env, Staged(s, c, stage))
  {
    var k := s.working[c];
    assert WorkOk(env, s, k) && InHandOf(s, c);
    assert WorkOk(env, s, k.(stage := stage));
    WorkIgnoresRecord(env, s, c, k.(stage := stage));
    NewWorkKeepsInv(env, s, c, k.(stage := stage));
  }

  lemma ListedKeepsInv(env: Setting, s: State, c: string, events: seq<L.Event>, fails: bool)
    requires Inv(env, s)
    ensures Inv(env, ListedNext(env, s, c, events, fails))
  {
    GiveUpKeepsInv(env, s, c);
    var s' := ListedNext(env, s, c, events, fails);
    if s' != s && s' != GiveUp(s, c) {
      assert WorkOk(env, s, s.working[c]);
      StagedKeepsInv(env, s, c, Listed(s.world.store.log, events));
    }
  }

  lemma ListKeepsInv(env: Setting, s: State, c: string, events: seq<L.Event>, fails: bool)
    requires Inv(env, s)
    ensures Inv(env, Next(env, s, List(c, events, fails)))
  {
    ListedKeepsInv(env, s, c, events, fails);
  }

  lemma SheetIsKeyed(sheets: Sheets, sheetId: string)
    requires KeyedSheets(sheets)
    ensures Keyed(SheetOf(sheets, sheetId))
  {
  }

  lemma FetchedKeepsInv(env: Setting, s: State, c: string, fails: bool)
    requires Inv(env, s)
    ensures Inv(env, Next(env, s, Fetch(c, fails)))
  {
    GiveUpKeepsInv(env, s, c);
    if c in s.working && s.working[c].todo != [] && s.working[c].stage.Listed? && !fails {
      var stage, sheetId := s.working[c].stage, SheetIdOf(env, s.working[c].todo[0]);
      assert WorkOk(env, s, s.working[c]);
      SheetIsKeyed(s.sheets, sheetId);
      StagedKeepsInv(env, s, c, Fetched(stage.read, stage.events, SheetOf(s.sheets, sheetId), WritesTo(s, sheetId)));
    }
  }

  /** The entry in hand is handled, and its job is finished. */
  lemma FinishingIsOk(env: Setting, s: State, c: string, ackLost: bool)
    requires Inv(env, s) && c in s.working && s.working[c].todo == []
    ensures Onward(s, Finished(s, c, ackLost)) && FinishedOk(env, Finished(s, c, ackLost), s.working[c].entry)
  {
    assert InHandOf(s, c) && WorkOk(env, s, s.working[c]);
    HandleTouches(s.group, c, true, ackLost);
    WorkStaysOk(env, s, Finished(s, c, ackLost), s.working[c]);
  }

  lemma FinishedKeepsInv(env: Setting, s: State, c: string, ackLost: bool)
    requires Inv(env, s)
    ensures Inv(env, Finished(s, c, ackLost))
  {
    if c in s.working && s.working[c].todo == [] {
      Q.NextKeepsInv(s.group, Q.Handle(c, true, ackLost));
      HandleTouches(s.group, c, true, ackLost);
      FinishingIsOk(env, s, c, ackLost);
      assert InHandOf(s, c);
      OnwardKeepsInv(env, s, Finished(s, c, ackLost));
    }
  }

  lemma FinishKeepsInv(env: Setting, s: State, c: string, ackLost: bool)
    requires Inv(env, s)
    ensures Inv(env, Next(env, s, Finish(c, ackLost)))
  {
    FinishedKeepsInv(env, s, c, ackLost);
  }

  // ------------------------------------------------------------------ the write

  lemma MergeIsKeyed(env: Setting, s: State, c: string)
    requires Inv(env, s) && ReadyToWrite(s, c)
    ensures Keyed(MergeOf(s, c))
  {
    assert WorkOk(env, s, s.working[c]);
    JoinKeyed(s.working[c].stage.events, s.working[c].stage.sheet);
  }

  lemma AfterWriteIsOnward(env: Setting, s: State, c: string, fault: SyncFault)
    requires ReadyToWrite(s, c)
    ensures Onward(s, AfterWrite(env, s, c, fault))
  {
    var sheetId := SheetIdOf(env, s.working[c].todo[0]);
    forall other | other != sheetId
      ensures SheetOf(AfterWrite(env, s, c, fault).sheets, other) == SheetOf(s.sheets, other)
    {
      OtherSheetsKept(s.sheets, sheetId, MergeOf(s, c), fault, other);
    }
  }

  /** The write itself, before the consumer's record moves on. */
  lemma AfterWriteKeepsInv(env: Setting, s: State, c: string, fault: SyncFault)
    requires Inv(env, s) && ReadyToWrite(s, c)
    ensures Inv(env, AfterWrite(env, s, c, fault))
  {
    MergeIsKeyed(env, s, c);
    WriteBackKeyed(s.sheets, SheetIdOf(env, s.working[c].todo[0]), MergeOf(s, c), fault);
    AfterWriteIsOnward(env, s, c, fault);
    OnwardKeepsInv(env, s, AfterWrite(env, s, c, fault));
  }

  lemma NoTargetForgotten(env: Setting, p: SyncJobPayload, k: Work, id: string)
    requires k.todo != [] && k.stage.Fetched? && (id in k.todo || id in k.done)
    ensures id in OneDone(k).todo || id in OneDone(k).done
  {
    assert k.todo == [k.todo[0]] + k.todo[1..];
  }

  lemma OneDoneIsOk(env: Setting, s: State, c: string)
    requires ReadyToWrite(s, c) && WorkOk(env, s, s.working[c])
    ensures WorkOk(env, s, OneDone(s.working[c]))
  {
    var k := s.working[c];
    var p := PayloadAt(env, s.group, k.entry).value;
    assert StageOk(env, s, p, k);
    forall id | IsTarget(env, p, id) ensures id in OneDone(k).todo || id in OneDone(k).done {
      NoTargetForgotten(env, p, k, id);
    }
  }

  lemma WrittenKeepsInv(env: Setting, s: State, c: string, fault: SyncFault)
    requires Inv(env, s)
    ensures Inv(env, Next(env, s, Write(c, fault)))
  {
    if ReadyToWrite(s, c) {
      var s1 := AfterWrite(env, s, c, fault);
      AfterWriteKeepsInv(env, s, c, fault);
      GiveUpKeepsInv(env, s1, c);
      assert WorkOk(env, s1, s1.working[c]);
      OneDoneIsOk(env, s1, c);
      WorkIgnoresRecord(env, s1, c, OneDone(s.working[c]));
      assert InHandOf(s, c);
      NewWorkKeepsInv(env, s1, c, OneDone(s.working[c]));
    }
  }

  /** Whether work is sound does not depend on what the consumers' records say. */
  lemma WorkIgnoresRecord(env: Setting, s: State, c: string, k: Work)
    requires WorkOk(env, s, k)
    ensures WorkOk(env, s.(working := s.working[c := k]), k)
  {
  }

  lemma NextKeepsInv(env: Setting, s: State, a: Action)
    requires Inv(env, s)
    ensures Inv(env, Next(env, s, a))
  {
    match a
    case Client(action) => ClientKeepsInv(env, s, action);
    case Publish(msg) => PublishKeepsInv(env, s, msg);
    case Read(c) => ReadKeepsInv(env, s, c);
    case Crash(c) => CrashKeepsInv(env, s, c);
    case Begin(c, ids) => BegunKeepsInv(env, s, c, ids);
    case List(c, events, fails) => ListKeepsInv(env, s, c, events, fails);
    case Fetch(c, fails) => FetchedKeepsInv(env, s, c, fails);
    case Write(c, fault) => WrittenKeepsInv(env, s, c, fault);
    case Finish(c, ackLost) => FinishKeepsInv(env, s, c, ackLost);
  }

  lemma BootIsSound(env: Setting)
    ensures Inv(env, BOOT)
  {
    assert H.Inv(L.INITIAL);
    assert Q.Inv(Q.EMPTY_GROUP);
  }

  lemma {:induction false} RunKeepsInv(env: Setting, t: Trace, i: nat)
    requires IsRun(env, t) && i < |t.states|
    ensures Inv(env, t.states[i])
    decreases i
  {
    if i == 0 {
      BootIsSound(env);
    } else {
      RunKeepsInv(env, t, i - 1);
      assert StepAt(env, t, i - 1);
      NextKeepsInv(env, t.states[i - 1], t.actions[i - 1]);
    }
  }
}
