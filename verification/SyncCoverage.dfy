/**
 From a committed mutation to the sheet: every queued job selects the event it was queued for, and its
 sheet row ends at the version the transactions table holds exactly when the limit of the query allows it.
 */
module SyncCoverage {
  import opened Ledger
  import opened LedgerHistory
  import opened SheetRows
  import opened Merge
  import opened MergeAlgebra
  import opened SheetSync
  import opened SyncConvergence
  import opened ListingChoice

  // ------------------------------------------------------------------ the ledger's log is fit for syncing

  lemma LedgerVersionsAreUnique(log: seq<Event>)
    requires Replay(log).Some?
    ensures UniqueVersions(log)
  {
    forall d, e | d in log && e in log && d.entityId == e.entityId && d.version == e.version ensures d == e {
      var i :| 0 <= i < |log| && log[i] == d;
      var j :| 0 <= j < |log| && log[j] == e;
      if i < j {
        VersionsAscend(log, i, j);
      } else if j < i {
        VersionsAscend(log, j, i);
      }
    }
  }

  /** The event of the mutation that a job was queued for. */
  predicate IsMutationOf(e: Event, j: SyncJob)
  {
    e.userId == j.userId && e.version == j.sinceVersion + 1 && e.opType == j.operation
  }

  /** The event of a queued job's mutation is in the log, then and ever after, and is among those the job selects. */
  lemma QueuedJobSelectsItsEvent(before: seq<Action>, j: SyncJob, after: seq<Action>) returns (e: Event)
    requires j in Run(INITIAL, before).jobs
    ensures var w := Run(Run(INITIAL, before), after);
      e in w.store.log && Selected(e, j.userId, j.sinceVersion) && IsMutationOf(e, j)
  {
    var w := Run(INITIAL, before);
    RunKeepsInv(INITIAL, before);
    assert JobOk(w.store.log, j);
    e :| e in w.store.log && e.userId == j.userId && j.sinceVersion == e.version - 1 && e.opType == j.operation;
    var i :| 0 <= i < |w.store.log| && w.store.log[i] == e;
    VersionBound(w.store.log, i);
    RunExtendsLog(w, after);
    assert Run(w, after).store.log[i] == e;
  }

  // ------------------------------------------------------------------ what a job leaves on the sheet

  lemma JoinRanksUp(m: RowMap, n: RowMap, id: string)
    ensures id in m ==> id in Join(m, n) && Version(Join(m, n)[id]) >= Version(m[id])
    ensures id in n ==> id in Join(m, n) && Version(Join(m, n)[id]) >= Version(n[id])
  {
  }

  /** Even a truncated job leaves no row below the newest event it listed for it. */
  lemma RowReachesListedEvents(sheets: Sheets, t: Task, e: Event)
    requires VersionOrdered(t.events) && e in t.events
    ensures RowAtLeast(Synced(sheets, t), t.sheetId, e.entityId, e.version)
  {
    LocalMapMeans(t.events);
    var i :| 0 <= i < |t.events| && t.events[i] == e;
    assert AboutEntity(t.events, e.entityId);
    var d := NewestEventEntersMerge(t.events, e.entityId);
    LocalRowRank(d);
    SyncedSheet(sheets, t, t.sheetId);
    JoinRanksUp(LocalMap(t.events), SheetOf(sheets, t.sheetId), e.entityId);
  }

  /** The sheet has a row of this id, at version v or above. */
  predicate RowAtLeast(sheets: Sheets, sheetId: string, id: string, v: int)
  {
    id in SheetOf(sheets, sheetId) && Version(SheetOf(sheets, sheetId)[id]) >= v
  }

  /** A row of this user that is newer than the version a job starts from. */
  predicate IsDue(t: Table, user: string, since: int, id: string)
  {
    id in t && t[id].userId == user && t[id].version > since
  }

  /** The log holds the table's row of an id as an event. */
  lemma RowHasEvent(w: World, user: string, since: int, id: string) returns (d: Event)
    requires Inv(w) && IsDue(w.store.table, user, since, id)
    ensures d in w.store.log && Selected(d, user, since) && d.entityId == id
    ensures d.version == w.store.table[id].version && d.payload == Json(w.store.table[id])
  {
    var k := LastOf(w.store.log, id);
    VersionBound(w.store.log, k);
    d := w.store.log[k];
  }

  /**
   Job coverage: if the selected events up to the table's version of a row fit under the limit of 1000,
   a job leaves the sheet's row at or above that version, whatever was on the sheet before.
   */
  lemma JobCoversTable(w: World, user: string, since: int, id: string, sheets: Sheets, t: Task)
    requires Inv(w) && IsDue(w.store.table, user, since, id)
    requires Fits(w.store.log, user, since, EVENT_LIMIT, w.store.table[id].version)
    requires Listing(w.store.log, user, since, EVENT_LIMIT, t.events)
    ensures RowAtLeast(Synced(sheets, t), t.sheetId, id, w.store.table[id].version)
  {
    var d := RowHasEvent(w, user, since, id);
    FittingIsListed(w.store.log, user, since, EVENT_LIMIT, d, t.events);
    RowReachesListedEvents(sheets, t, d);
  }

  ghost predicate AlwaysCovered(w: World, user: string, since: int, id: string)
    requires id in w.store.table
  {
    forall sheets: Sheets, t: Task :: Listing(w.store.log, user, since, EVENT_LIMIT, t.events) ==>
      RowAtLeast(Synced(sheets, t), t.sheetId, id, w.store.table[id].version)
  }

  /** An event at the table's version of its row, or above, is the row's newest. */
  lemma OnlyNewestReaches(w: World, id: string, d: Event, e: Event)
    requires Inv(w) && id in w.store.table && d in w.store.log && e in w.store.log && d.entityId == e.entityId == id
    requires d.version == w.store.table[id].version && e.version >= d.version
    ensures d == e
  {
    var i :| 0 <= i < |w.store.log| && w.store.log[i] == e;
    VersionBound(w.store.log, i);
    LedgerVersionsAreUnique(w.store.log);
  }

  lemma SyncFromNothing(t: Task)
    ensures SheetOf(Synced(map[], t), t.sheetId) == LocalMap(t.events)
  {
    SyncedSheet(map[], t, t.sheetId);
    assert Join(LocalMap(t.events), map[]) == LocalMap(t.events);
  }

  /** A job that does not list a row's newest event leaves an empty sheet behind the table. */
  lemma UnlistedRowLags(w: World, id: string, d: Event, t: Task)
    requires Inv(w) && id in w.store.table && d in w.store.log && d.entityId == id
    requires d.version == w.store.table[id].version && d !in t.events && ReadsLog(w.store.log, t)
    ensures !RowAtLeast(Synced(map[], t), t.sheetId, id, d.version)
  {
    SyncFromNothing(t);
    if id in LocalMap(t.events) {
      var e := NewestEventEntersMerge(t.events, id);
      LocalRowRank(e);
      if e.version >= d.version {
        OnlyNewestReaches(w, id, d, e);
      }
    }
  }

  /**
   A row is covered by every run of a job if and only if the selected events up to its version fit under the
   limit.
   */
  lemma AlwaysCoveredIff(w: World, user: string, since: int, id: string)
    requires Inv(w) && IsDue(w.store.table, user, since, id)
    ensures AlwaysCovered(w, user, since, id) <==>
      Fits(w.store.log, user, since, EVENT_LIMIT, w.store.table[id].version)
  {
    if Fits(w.store.log, user, since, EVENT_LIMIT, w.store.table[id].version) {
      forall sheets: Sheets, t: Task | Listing(w.store.log, user, since, EVENT_LIMIT, t.events)
        ensures RowAtLeast(Synced(sheets, t), t.sheetId, id, w.store.table[id].version)
      {
        JobCoversTable(w, user, since, id, sheets, t);
      }
    } else {
      var d := RowHasEvent(w, user, since, id);
      var out := OmittingListing(w.store.log, user, since, EVENT_LIMIT, d);
      UnlistedRowLags(w, id, d, Task("sheet", out));
      assert Listing(w.store.log, user, since, EVENT_LIMIT, Task("sheet", out).events);
    }
  }

  /** After more creates by one user than the limit, no row is covered by every run of the first job. */
  lemma ManyCreatesAreNotCovered(n: nat, i: nat)
    requires i < n && EVENT_LIMIT < n
    ensures var w := Run(INITIAL, Creates(n));
      IsDue(w.store.table, "u", 0, Name(i)) && !AlwaysCovered(w, "u", 0, Name(i))
  {
    var w := Run(INITIAL, Creates(n));
    RunCreates(n);
    CreatesLog(n);
    RunKeepsInv(INITIAL, Creates(n));
    assert CreatedFirst(w.store.log[i], i);
    VersionBound(w.store.log, i);
    CreatesAreSelected(n);
    AlwaysCoveredIff(w, "u", 0, Name(i));
  }

  /**
   From commit to sheet: however much the ledger has moved on when a queued job is processed, the row of
   the mutation it was queued for ends at or above the version the table then holds, provided the events
   up to that version fit under the limit; and at or above the mutation's own version, if those up to it fit.
   */
  lemma QueuedJobCoversItsRow(before: seq<Action>, j: SyncJob, after: seq<Action>, e: Event, sheets: Sheets, t: Task)
    requires j in Run(INITIAL, before).jobs && e in Run(INITIAL, before).store.log && IsMutationOf(e, j)
    requires Listing(Run(Run(INITIAL, before), after).store.log, j.userId, j.sinceVersion, EVENT_LIMIT, t.events)
    ensures var s := Run(Run(INITIAL, before), after).store;
      && IsDue(s.table, j.userId, j.sinceVersion, e.entityId) && s.table[e.entityId].version >= e.version
      && (Fits(s.log, j.userId, j.sinceVersion, EVENT_LIMIT, s.table[e.entityId].version) ==>
          RowAtLeast(Synced(sheets, t), t.sheetId, e.entityId, s.table[e.entityId].version))
      && (Fits(s.log, j.userId, j.sinceVersion, EVENT_LIMIT, e.version) ==>
          RowAtLeast(Synced(sheets, t), t.sheetId, e.entityId, e.version))
  {
    var v := Run(INITIAL, before);
    var w := Run(v, after);
    RunKeepsInv(INITIAL, before);
    RunKeepsInv(v, after);
    RunExtendsLog(v, after);
    var i :| 0 <= i < |v.store.log| && v.store.log[i] == e;
    assert w.store.log[i] == e;
    VersionBound(w.store.log, i);
    if Fits(w.store.log, j.userId, j.sinceVersion, EVENT_LIMIT, w.store.table[e.entityId].version) {
      JobCoversTable(w, j.userId, j.sinceVersion, e.entityId, sheets, t);
    }
    if Fits(w.store.log, j.userId, j.sinceVersion, EVENT_LIMIT, e.version) {
      FittingIsListed(w.store.log, j.userId, j.sinceVersion, EVENT_LIMIT, e, t.events);
      RowReachesListedEvents(sheets, t, e);
    }
  }

  // ------------------------------------------------------------------ sheets that only jobs write

  /** Every row of every sheet is the row of some event of the log. */
  ghost predicate FromLog(sheets: Sheets, log: seq<Event>)
  {
    forall s, id :: s in sheets && id in sheets[s] ==> RowFromLog(log, id, sheets[s][id])
  }

  ghost predicate RowFromLog(log: seq<Event>, id: string, r: SheetRow)
  {
    exists e :: e in log && e.entityId == id && r == LocalRow(e)
  }

  lemma SyncedKeepsFromLog(sheets: Sheets, log: seq<Event>, t: Task)
    requires FromLog(sheets, log) && ReadsLog(log, t)
    ensures FromLog(Synced(sheets, t), log)
  {
    var l := LocalMap(t.events);
    forall id | id in l ensures RowFromLog(log, id, l[id]) {
      var e := NewestEventEntersMerge(t.events, id);
    }
  }

  lemma {:induction false} JobsKeepFromLog(sheets: Sheets, log: seq<Event>, tasks: seq<Task>)
    requires FromLog(sheets, log) && AllReadLog(log, tasks)
    ensures FromLog(SyncAll(sheets, tasks), log)
    decreases |tasks|
  {
    if |tasks| > 0 {
      JobsKeepFromLog(sheets, log, tasks[..|tasks| - 1]);
      SyncedKeepsFromLog(SyncAll(sheets, tasks[..|tasks| - 1]), log, tasks[|tasks| - 1]);
    }
  }

  /** The only event of an entity at or above the table's version is its newest one. */
  lemma RowAtTableVersion(w: World, id: string, r: SheetRow)
    requires Inv(w) && id in w.store.table && RowFromLog(w.store.log, id, r) && Version(r) >= w.store.table[id].version
    ensures Version(r) == w.store.table[id].version && Lookup(r.payload, "raw") == Raw(Json(w.store.table[id]))
  {
    var log := w.store.log;
    var c :| c in log && c.entityId == id && r == LocalRow(c);
    LocalRowRank(c);
    var i :| 0 <= i < |log| && log[i] == c;
    VersionBound(log, i);
    var k := LastOf(log, id);
    LedgerVersionsAreUnique(log);
    assert log[k] in log;
  }

  /**
   On a sheet that only jobs have written, in any order and any number of times, a job makes the row of
   a transaction exactly the row of its newest event, its payload the row the table holds, provided the
   selected events up to that version fit under the limit.
   */
  lemma JobMakesRowCurrent(w: World, user: string, since: int, id: string, earlier: seq<Task>, t: Task)
    requires Inv(w) && IsDue(w.store.table, user, since, id) && AllReadLog(w.store.log, earlier)
    requires Fits(w.store.log, user, since, EVENT_LIMIT, w.store.table[id].version)
    requires Listing(w.store.log, user, since, EVENT_LIMIT, t.events)
    ensures var sheet := SheetOf(Synced(SyncAll(map[], earlier), t), t.sheetId);
      && id in sheet && Version(sheet[id]) == w.store.table[id].version
      && Lookup(sheet[id].payload, "raw") == Raw(Json(w.store.table[id]))
  {
    var log, sheets := w.store.log, SyncAll(map[], earlier);
    JobsKeepFromLog(map[], log, earlier);
    JobCoversTable(w, user, since, id, sheets, t);
    SyncedKeepsFromLog(sheets, log, t);
    var sheet := SheetOf(Synced(sheets, t), t.sheetId);
    assert RowFromLog(log, id, sheet[id]);
    RowAtTableVersion(w, id, sheet[id]);
  }
}
