/**
 Whose rows are on a sheet: in every run of the pipeline each row of each sheet is the row of an event of a user
 who owns a connection to that sheet, however the jobs overlap and whatever fails.
 */
module SheetOwners {
  import opened Wrappers
  import opened SheetRows
  import opened Merge
  import opened MergeAlgebra
  import opened SheetSync
  import opened SheetWrites
  import opened SyncPipeline
  import opened SyncPipelineHistory
  import opened AcknowledgedJobs
  import L = Ledger

  /** The row is that of an event in the log whose user owns a connection to the sheet. */
  ghost predicate OwnRow(env: Setting, log: seq<L.Event>, sheetId: string, id: string, r: SheetRow)
  {
    exists e, c :: OwnedBy(env, log, sheetId, id, r, e, c)
  }

  predicate OwnedBy(env: Setting, log: seq<L.Event>, sheetId: string, id: string, r: SheetRow, e: L.Event, c: string)
  {
    && e in log && e.entityType == "transaction" && e.entityId == id && r == LocalRow(e)
    && c in env.connections && env.connections[c].sheetId == sheetId && env.connections[c].userId == e.userId
  }

  ghost predicate OwnRows(env: Setting, log: seq<L.Event>, sheetId: string, m: RowMap)
  {
    forall id :: id in m ==> OwnRow(env, log, sheetId, id, m[id])
  }

  ghost predicate OwnFetch(env: Setting, log: seq<L.Event>, k: Work)
  {
    k.stage.Fetched? && k.todo != [] ==> OwnRows(env, log, SheetIdOf(env, k.todo[0]), k.stage.sheet)
  }

  /** What is on the sheets, and what consumers have fetched from them. */
  ghost predicate AllOwn(env: Setting, s: State)
  {
    && (forall sheetId :: OwnRows(env, s.world.store.log, sheetId, SheetOf(s.sheets, sheetId)))
    && (forall c :: c in s.working ==> OwnFetch(env, s.world.store.log, s.working[c]))
  }

  lemma OwnRowsStay(env: Setting, log: seq<L.Event>, log': seq<L.Event>, sheetId: string, m: RowMap)
    requires log <= log' && OwnRows(env, log, sheetId, m)
    ensures OwnRows(env, log', sheetId, m)
  {
    forall id | id in m ensures OwnRow(env, log', sheetId, id, m[id]) {
      assert OwnRow(env, log, sheetId, id, m[id]);
      var e, c :| OwnedBy(env, log, sheetId, id, m[id], e, c);
      StillInLog(log, log', e);
      assert OwnedBy(env, log', sheetId, id, m[id], e, c);
    }
  }

  lemma OwnFetchStays(env: Setting, log: seq<L.Event>, log': seq<L.Event>, k: Work)
    requires log <= log' && OwnFetch(env, log, k)
    ensures OwnFetch(env, log', k)
  {
    if k.stage.Fetched? && k.todo != [] {
      OwnRowsStay(env, log, log', SheetIdOf(env, k.todo[0]), k.stage.sheet);
    }
  }

  /** The rows made from a listing of the connection's user belong on the connection's sheet. */
  lemma ListedRowsAreOwn(env: Setting, log: seq<L.Event>, read: seq<L.Event>, events: seq<L.Event>,
                         p: SyncJobPayload, c: string)
    requires Owns(env.connections, p.userId, c) && read <= log
    requires Listing(read, p.userId, p.sinceVersion, EVENT_LIMIT, events)
    ensures OwnRows(env, log, SheetIdOf(env, c), LocalMap(events))
  {
    var l := LocalMap(events);
    forall id | id in l ensures OwnRow(env, log, SheetIdOf(env, c), id, l[id]) {
      var e := NewestEventEntersMerge(events, id);
      StillInLog(read, log, e);
      assert OwnedBy(env, log, SheetIdOf(env, c), id, l[id], e, c);
    }
  }

  lemma JoinIsOwn(env: Setting, log: seq<L.Event>, sheetId: string, l: RowMap, m: RowMap)
    requires OwnRows(env, log, sheetId, l) && OwnRows(env, log, sheetId, m)
    ensures OwnRows(env, log, sheetId, Join(l, m))
  {
  }

  lemma MergeIsOwn(env: Setting, s: State, c: string)
    requires Inv(env, s) && AllOwn(env, s) && ReadyToWrite(s, c)
    ensures OwnRows(env, s.world.store.log, SheetIdOf(env, s.working[c].todo[0]), MergeOf(s, c))
  {
    var k := s.working[c];
    assert WorkOk(env, s, k) && OwnFetch(env, s.world.store.log, k);
    ListedRowsAreOwn(env, s.world.store.log, k.stage.read, k.stage.events,
                     PayloadAt(env, s.group, k.entry).value, k.todo[0]);
    JoinIsOwn(env, s.world.store.log, SheetIdOf(env, k.todo[0]), LocalMap(k.stage.events), k.stage.sheet);
  }

  /** A write adds rows of its merge to one sheet and leaves the others alone. */
  lemma WriteIsOwn(env: Setting, log: seq<L.Event>, sheets: Sheets, sheetId: string, target: RowMap, fault: SyncFault,
                   other: string)
    requires Keyed(target) && OwnRows(env, log, sheetId, target) && OwnRows(env, log, other, SheetOf(sheets, other))
    ensures OwnRows(env, log, other, SheetOf(WriteBack(sheets, sheetId, target, fault).sheets, other))
  {
    var sheet' := SheetOf(WriteBack(sheets, sheetId, target, fault).sheets, other);
    if other != sheetId {
      OtherSheetsKept(sheets, sheetId, target, fault, other);
    } else {
      forall id | id in sheet' ensures OwnRow(env, log, other, id, sheet'[id]) {
        WriteBackMeans(sheets, sheetId, target, fault, id);
      }
    }
  }

  lemma SheetsStayOwn(env: Setting, s: State, a: Action, sheetId: string)
    requires Inv(env, s) && AllOwn(env, s)
    ensures OwnRows(env, s.world.store.log, sheetId, SheetOf(Next(env, s, a).sheets, sheetId))
  {
    OnlyWritesTouchSheets(env, s, a);
    if a.Write? && ReadyToWrite(s, a.consumer) {
      MergeIsKeyed(env, s, a.consumer);
      MergeIsOwn(env, s, a.consumer);
      var written := SheetIdOf(env, s.working[a.consumer].todo[0]);
      WriteIsOwn(env, s.world.store.log, s.sheets, written, MergeOf(s, a.consumer), a.fault, sheetId);
    }
  }

  /** What consumers have fetched after a step they had fetched before, or have just taken from a sheet. */
  ghost predicate FetchedFromSheets(env: Setting, s: State, s': State)
  {
    forall c :: c in s'.working ==> FetchedFrom(env, s, s'.working[c], c)
  }

  predicate FetchedFrom(env: Setting, s: State, k: Work, c: string)
  {
    k.stage.Fetched? && k.todo != [] ==>
      (c in s.working && s.working[c] == k) || k.stage.sheet == SheetOf(s.sheets, SheetIdOf(env, k.todo[0]))
  }

  lemma BeginFetchesNothing(env: Setting, s: State, c: string, ids: Option<seq<string>>)
    requires s.group.delivered <= |s.group.entries|
    ensures FetchedFromSheets(env, s, Begun(env, s, c, ids))
  {
  }

  lemma ListFetchesNothing(env: Setting, s: State, c: string, events: seq<L.Event>, fails: bool)
    requires s.group.delivered <= |s.group.entries|
    ensures FetchedFromSheets(env, s, ListedNext(env, s, c, events, fails))
  {
  }

  lemma FetchTakesSheet(env: Setting, s: State, c: string, fails: bool)
    requires s.group.delivered <= |s.group.entries|
    ensures FetchedFromSheets(env, s, FetchedNext(env, s, c, fails))
  {
  }

  lemma WriteFetchesNothing(env: Setting, s: State, c: string, fault: SyncFault)
    requires s.group.delivered <= |s.group.entries|
    ensures FetchedFromSheets(env, s, WrittenNext(env, s, c, fault))
  {
  }

  lemma FinishFetchesNothing(env: Setting, s: State, c: string, ackLost: bool)
    requires s.group.delivered <= |s.group.entries|
    ensures FetchedFromSheets(env, s, Finished(s, c, ackLost))
  {
  }

  lemma StepFetchesFromSheets(env: Setting, s: State, a: Action)
    requires s.group.delivered <= |s.group.entries|
    ensures FetchedFromSheets(env, s, Next(env, s, a))
  {
    match a
    case Begin(c, ids) => BeginFetchesNothing(env, s, c, ids);
    case List(c, events, fails) => ListFetchesNothing(env, s, c, events, fails);
    case Fetch(c, fails) => FetchTakesSheet(env, s, c, fails);
    case Write(c, fault) => WriteFetchesNothing(env, s, c, fault);
    case Finish(c, ackLost) => FinishFetchesNothing(env, s, c, ackLost);
    case _ =>
  }

  lemma StepKeepsOwn(env: Setting, s: State, a: Action)
    requires Inv(env, s) && AllOwn(env, s)
    ensures AllOwn(env, Next(env, s, a))
  {
    var s' := Next(env, s, a);
    StepGrows(env, s, a);
    forall sheetId ensures OwnRows(env, s'.world.store.log, sheetId, SheetOf(s'.sheets, sheetId)) {
      SheetsStayOwn(env, s, a, sheetId);
      OwnRowsStay(env, s.world.store.log, s'.world.store.log, sheetId, SheetOf(s'.sheets, sheetId));
    }
    StepFetchesFromSheets(env, s, a);
    forall c | c in s'.working ensures OwnFetch(env, s'.world.store.log, s'.working[c]) {
      assert FetchedFrom(env, s, s'.working[c], c);
      OwnFetchStays(env, s.world.store.log, s'.world.store.log, s'.working[c]);
    }
  }

  lemma BootIsOwn(env: Setting)
    ensures AllOwn(env, BOOT)
  {
  }

  lemma StepOfRunKeepsOwn(env: Setting, t: Trace, i: nat)
    requires IsRun(env, t) && i < |t.actions| && AllOwn(env, t.states[i])
    ensures AllOwn(env, t.states[i + 1])
  {
    RunKeepsInv(env, t, i);
    assert StepAt(env, t, i);
    StepKeepsOwn(env, t.states[i], t.actions[i]);
  }

  lemma {:induction false} RunKeepsOwn(env: Setting, t: Trace, i: nat)
    requires IsRun(env, t) && i < |t.states|
    ensures AllOwn(env, t.states[i])
    decreases i
  {
    if i == 0 {
      BootIsOwn(env);
    } else {
      RunKeepsOwn(env, t, i - 1);
      StepOfRunKeepsOwn(env, t, i - 1);
    }
  }

  /**
   In every state of every run, each row on a sheet carries the version, time and payload of a logged transaction
   event of its id, and the event's user owns a connection to the sheet.
   */
  lemma SheetsHoldOnlyTheirOwnersRows(env: Setting, t: Trace, i: nat, sheetId: string, id: string)
    returns (e: L.Event, c: string)
    requires IsRun(env, t) && i < |t.states| && sheetId in t.states[i].sheets && id in t.states[i].sheets[sheetId]
    ensures e in t.states[i].world.store.log && e.entityType == "transaction" && e.entityId == id
    ensures c in env.connections && env.connections[c].sheetId == sheetId && env.connections[c].userId == e.userId
    ensures var r := t.states[i].sheets[sheetId][id];
      && r.rowId == id && ExtractVersion(r.payload) == e.version && ExtractCreatedAt(r.payload) == e.createdAt
      && "raw" in r.payload && r.payload["raw"] == Raw(e.payload)
  {
    RunKeepsOwn(env, t, i);
    assert OwnRows(env, t.states[i].world.store.log, sheetId, SheetOf(t.states[i].sheets, sheetId));
    assert OwnRow(env, t.states[i].world.store.log, sheetId, id, t.states[i].sheets[sheetId][id]);
    e, c :| OwnedBy(env, t.states[i].world.store.log, sheetId, id, t.states[i].sheets[sheetId][id], e, c);
    LocalRowRank(e);
  }
}
