/**
 One sync job: list the user's events above a version, turn them into local rows, merge them with the
 sheet's rows and write the result back. A sheet is a store keyed by RowID.
 */
module SheetSync {
  import opened Wrappers
  import opened Ledger
  import opened LedgerHistory
  import opened SheetRows
  import opened Sorting
  import opened Merge
  import opened MergeAlgebra

  const EVENT_LIMIT := 1000

  // ------------------------------------------------------------------ the event query

  predicate Selected(e: Event, user: string, since: int)
  {
    e.userId == user && e.entityType == "transaction" && e.version > since
  }

  predicate VersionOrdered(es: seq<Event>)
  {
    forall i, j :: 0 <= i < j < |es| ==> es[i].version <= es[j].version
  }

  predicate Distinct(es: seq<Event>)
  {
    forall i, j :: 0 <= i < j < |es| ==> es[i] != es[j]
  }

  /**
   What the query may return: selected events in ascending version order, at most `limit`, and
   everything left out is at least as new. Which of several events with equal versions come first,
   or are cut off, is not fixed.
   */
  ghost predicate Listing(log: seq<Event>, user: string, since: int, limit: nat, out: seq<Event>)
  {
    && Distinct(out) && VersionOrdered(out) && |out| <= limit
    && (forall e :: e in out ==> e in log && Selected(e, user, since))
    && (forall e :: e in log && Selected(e, user, since) && e !in out ==>
        |out| == limit && forall d :: d in out ==> d.version <= e.version)
  }

  predicate NotNewer(d: Event, e: Event)
  {
    d.version <= e.version
  }

  /** WHERE of the query, in log order. */
  method SelectEvents(log: seq<Event>, user: string, since: int) returns (all: seq<Event>)
    requires IdsAscend(log)
    ensures Distinct(all) && forall e :: e in all <==> e in log && Selected(e, user, since)
  {
    all := [];
    for i := 0 to |log|
      invariant Distinct(all) && forall e :: e in all <==> e in log[..i] && Selected(e, user, since)
    {
      assert log[..i + 1] == log[..i] + [log[i]];
      if log[i].userId == user && log[i].entityType == "transaction" && log[i].version > since {
        assert log[i] !in log[..i];
        all := all + [log[i]];
      }
    }
    assert log[..|log|] == log;
  }

  /** The first `limit` of all selected events in version order are a possible listing. */
  lemma FrontIsListing(log: seq<Event>, user: string, since: int, limit: nat, all: seq<Event>)
    requires VersionOrdered(all) && Distinct(all)
    requires forall e :: e in all <==> e in log && Selected(e, user, since)
    ensures Listing(log, user, since, limit, if |all| <= limit then all else all[..limit])
  {
    if limit < |all| {
      var out := all[..limit];
      forall e | e in all && e !in out ensures forall d :: d in out ==> d.version <= e.version {
        var k :| 0 <= k < |all| && all[k] == e;
        assert limit <= k;
      }
    }
  }

  /** What a listing is, in the columns of the query: the user's own transaction events above the version. */
  lemma ListingIff(log: seq<Event>, user: string, since: int, limit: nat, out: seq<Event>)
    ensures Listing(log, user, since, limit, out) <==>
      && (forall e :: e in out ==>
          e in log && e.userId == user && e.entityType == "transaction" && e.version > since)
      && (forall i, j :: 0 <= i < j < |out| ==> out[i].version <= out[j].version && out[i] != out[j])
      && |out| <= limit
      && (forall e | e in log && e.userId == user && e.entityType == "transaction" && e.version > since && e !in out ::
          |out| == limit && forall d :: d in out ==> d.version <= e.version)
  {
  }

  method ListTransactionEventsSince(log: seq<Event>, user: string, since: int, limit: nat) returns (result: seq<Event>)
    requires IdsAscend(log)
    ensures Listing(log, user, since, limit, result)
    ensures forall e :: e in result ==>
      e in log && e.userId == user && e.entityType == "transaction" && e.version > since
    ensures forall i, j :: 0 <= i < j < |result| ==> result[i].version <= result[j].version && result[i] != result[j]
    ensures |result| <= limit
    ensures forall e | e in log && e.userId == user && e.entityType == "transaction" && e.version > since &&
      e !in result :: |result| == limit && forall d :: d in result ==> d.version <= e.version
  {
    var selected := SelectEvents(log, user, since);
    var all := Sort(selected, NotNewer);
    SameContents(selected, all);
    StaysDistinct(selected, all);
    assert VersionOrdered(all);
    FrontIsListing(log, user, since, limit, all);
    result := if |all| <= limit then all else all[..limit];
    ListingIff(log, user, since, limit, result);
  }

  // ------------------------------------------------------------------ local rows

  function LocalRow(e: Event): SheetRow
  {
    SheetRow(e.entityId, map["raw" := Raw(e.payload), "version" := Int64(e.version), "createdAt" := Time(e.createdAt)])
  }

  lemma LocalRowRank(e: Event)
    ensures Version(LocalRow(e)) == e.version && CreatedAt(LocalRow(e)) == e.createdAt
  {
  }

  function LocalRows(es: seq<Event>): seq<SheetRow>
  {
    seq(|es|, i requires 0 <= i < |es| => LocalRow(es[i]))
  }

  /** The local side of the merge, keyed by entity. */
  function LocalMap(es: seq<Event>): RowMap
  {
    LastLocal(LocalRows(es))
  }

  predicate AboutEntity(es: seq<Event>, id: string)
  {
    exists i :: 0 <= i < |es| && es[i].entityId == id
  }

  lemma LocalMapMeans(es: seq<Event>)
    ensures Keyed(LocalMap(es))
    ensures forall id :: id in LocalMap(es) <==> AboutEntity(es, id)
  {
    LastLocalMeans(LocalRows(es));
    forall id ensures HasRow(LocalRows(es), id) <==> AboutEntity(es, id) {
      if AboutEntity(es, id) {
        var i :| 0 <= i < |es| && es[i].entityId == id;
        assert LocalRows(es)[i].rowId == id;
      }
      if HasRow(LocalRows(es), id) {
        var i :| 0 <= i < |es| && LocalRows(es)[i].rowId == id;
        assert es[i].entityId == id;
      }
    }
  }

  /** The last listed event of an entity. */
  lemma {:induction false} LastAbout(es: seq<Event>, id: string) returns (i: int)
    requires AboutEntity(es, id)
    ensures 0 <= i < |es| && es[i].entityId == id && forall j :: i < j < |es| ==> es[j].entityId != id
    decreases |es|
  {
    i := |es| - 1;
    if es[i].entityId != id {
      var k :| 0 <= k < |es| && es[k].entityId == id;
      assert es[..|es| - 1][k].entityId == id;
      i := LastAbout(es[..|es| - 1], id);
    }
  }

  /** Newest event wins locally: the row that enters the merge is the entity's highest listed version. */
  lemma NewestEventEntersMerge(es: seq<Event>, id: string) returns (e: Event)
    requires id in LocalMap(es)
    ensures e in es && e.entityId == id && LocalMap(es)[id] == LocalRow(e)
    ensures VersionOrdered(es) ==> forall d :: d in es && d.entityId == id ==> d.version <= e.version
  {
    LocalMapMeans(es);
    LastLocalMeans(LocalRows(es));
    var i := LastAbout(es, id);
    e := es[i];
    assert LastAt(LocalRows(es), i);
    if VersionOrdered(es) {
      LastIsNewest(es, i);
    }
  }

  /** In version order nothing about the entity is newer than its last event. */
  lemma LastIsNewest(es: seq<Event>, i: int)
    requires VersionOrdered(es) && 0 <= i < |es| && forall j :: i < j < |es| ==> es[j].entityId != es[i].entityId
    ensures forall d :: d in es && d.entityId == es[i].entityId ==> d.version <= es[i].version
  {
    forall d | d in es && d.entityId == es[i].entityId ensures d.version <= es[i].version {
      var j :| 0 <= j < |es| && es[j] == d;
    }
  }

  // ------------------------------------------------------------------ one sync of one sheet

  /** The sheets by id; one that has never been written is empty. */
  type Sheets = map<string, RowMap>

  function SheetOf(sheets: Sheets, sheetId: string): RowMap
  {
    if sheetId in sheets then sheets[sheetId] else map[]
  }

  predicate KeyedSheets(sheets: Sheets)
  {
    forall s :: s in sheets ==> Keyed(sheets[s])
  }

  /** A sheet to bring up to date with the events that one job listed. */
  datatype Task = Task(sheetId: string, events: seq<Event>)

  function Target(sheets: Sheets, t: Task): RowMap
  {
    Join(LocalMap(t.events), SheetOf(sheets, t.sheetId))
  }

  /** The effect of a sync that does not fail; an empty merge writes nothing. */
  function Synced(sheets: Sheets, t: Task): Sheets
  {
    if Target(sheets, t) == map[] then sheets else sheets[t.sheetId := Target(sheets, t)]
  }

  /** Where one sync fails: before it writes, or after the client has written the first n rows. */
  datatype SyncFault = NoSyncFault | BeforeWrite | DuringWrite(n: nat)

  function Upsert(sheet: RowMap, rows: seq<SheetRow>): RowMap
  {
    if |rows| == 0 then sheet else Upsert(sheet, rows[..|rows| - 1])[rows[|rows| - 1].rowId := rows[|rows| - 1]]
  }

  function Written(rows: seq<SheetRow>, n: nat): seq<SheetRow>
  {
    if n < |rows| then rows[..n] else rows
  }

  datatype SyncResult = SyncResult(sheets: Sheets, ok: bool)

  /** Writing rows back to a sheet. No rows are not written at all, so that write cannot fail. */
  ghost function WriteBack(sheets: Sheets, sheetId: string, target: RowMap, fault: SyncFault): SyncResult
  {
    var rows := Rows(target);
    if fault.BeforeWrite? then SyncResult(sheets, false)
    else if |rows| == 0 then SyncResult(sheets, true)
    else if fault.NoSyncFault? then SyncResult(sheets[sheetId := Upsert(SheetOf(sheets, sheetId), rows)], true)
    else SyncResult(sheets[sheetId := Upsert(SheetOf(sheets, sheetId), Written(rows, fault.n))], false)
  }

  /** One undisturbed SyncUserTransactions call on an existing connection. */
  ghost function SyncOne(sheets: Sheets, t: Task, fault: SyncFault): SyncResult
  {
    WriteBack(sheets, t.sheetId, Target(sheets, t), fault)
  }

  lemma {:induction false} UpsertMeans(sheet: RowMap, rows: seq<SheetRow>, target: RowMap)
    requires forall i :: 0 <= i < |rows| ==> rows[i].rowId in target && target[rows[i].rowId] == rows[i]
    ensures var u := Upsert(sheet, rows);
      forall id :: (id in u <==> id in sheet || HasRow(rows, id)) && (id in u ==>
        if HasRow(rows, id) then id in target && u[id] == target[id] else id in sheet && u[id] == sheet[id])
    decreases |rows|
  {
    if |rows| > 0 {
      var front, r := rows[..|rows| - 1], rows[|rows| - 1];
      assert rows == front + [r];
      UpsertMeans(sheet, front, target);
      forall id ensures HasRow(rows, id) <==> HasRow(front, id) || r.rowId == id {
        HasRowAppend(front, r, id);
      }
    }
  }

  lemma TargetKeyed(sheets: Sheets, t: Task)
    requires KeyedSheets(sheets)
    ensures Keyed(Target(sheets, t))
  {
    LocalMapMeans(t.events);
  }

  /** Writing back the whole merge makes the sheet equal to it. */
  lemma FullWriteReachesTarget(sheets: Sheets, t: Task)
    requires KeyedSheets(sheets)
    ensures Upsert(SheetOf(sheets, t.sheetId), Rows(Target(sheets, t))) == Target(sheets, t)
  {
    var target := Target(sheets, t);
    TargetKeyed(sheets, t);
    RowsEnumerate(target);
    UpsertMeans(SheetOf(sheets, t.sheetId), Rows(target), target);
  }

  // ------------------------------------------------------------------ the service

  datatype Connection = Connection(userId: string, sheetId: string, deletedAt: Option<int>)

  datatype SyncJobPayload = SyncJobPayload(userId: string, connectionId: string, sinceVersion: int)

  /** A list of exactly the user's connections, in some order. */
  ghost predicate IsListOf(connections: map<string, Connection>, userId: string, ids: seq<string>)
  {
    forall c :: c in ids <==> Owns(connections, userId, c)
  }

  /** A list of exactly the user's connections that are not deleted. */
  ghost predicate IsActiveListOf(connections: map<string, Connection>, userId: string, ids: seq<string>)
  {
    forall c :: c in ids <==> Owns(connections, userId, c) && connections[c].deletedAt.None?
  }

  /** What ListActiveByUser returns are the active connections if and only if the user has no deleted one. */
  lemma ListedAreActiveIff(connections: map<string, Connection>, userId: string, ids: seq<string>)
    requires IsListOf(connections, userId, ids)
    ensures IsActiveListOf(connections, userId, ids) <==>
      forall c :: Owns(connections, userId, c) ==> connections[c].deletedAt.None?
  {
    if c :| Owns(connections, userId, c) && connections[c].deletedAt.Some? {
      assert c in ids;
    }
  }

  /** A deleted connection is listed. */
  lemma DeletedIsListed(ids: seq<string>)
    requires IsListOf(map["c" := Connection("u", "s", Some(1))], "u", ids)
    ensures "c" in ids && !IsActiveListOf(map["c" := Connection("u", "s", Some(1))], "u", ids)
  {
    assert Owns(map["c" := Connection("u", "s", Some(1))], "u", "c");
  }

  /** The connections a job is for: the named one, or every connection of its user, in some order. */
  ghost predicate AreTargets(connections: map<string, Connection>, p: SyncJobPayload, ids: seq<string>)
  {
    if p.connectionId != "" then ids == [p.connectionId]
    else IsListOf(connections, p.userId, ids)
  }

  /** The named connection does not exist or belongs to someone else. */
  predicate Refused(connections: map<string, Connection>, p: SyncJobPayload)
  {
    p.connectionId != "" && !Owns(connections, p.userId, p.connectionId)
  }

  predicate Owns(connections: map<string, Connection>, userId: string, connId: string)
  {
    connId in connections && connections[connId].userId == userId
  }

  /**
   The tasks attempted for the first connections of a list, one each: the connection's sheet and a listing of
   the user's events.
   */
  ghost predicate AreTasksOf(connections: map<string, Connection>, log: seq<Event>, userId: string, sinceVersion: int,
                             ids: seq<string>, tasks: seq<Task>)
  {
    && |tasks| <= |ids|
    && forall i :: 0 <= i < |tasks| ==>
      Owns(connections, userId, ids[i]) && tasks[i].sheetId == connections[ids[i]].sheetId
      && Listing(log, userId, sinceVersion, EVENT_LIMIT, tasks[i].events)
  }

  /** Targets, refusals and tasks of a job in the fields of the connections. */
  lemma JobInFields(connections: map<string, Connection>, log: seq<Event>, p: SyncJobPayload, ids: seq<string>,
                    tasks: seq<Task>)
    ensures Refused(connections, p) <==>
      && p.connectionId != ""
      && (p.connectionId in connections ==> connections[p.connectionId].userId != p.userId)
    ensures p.connectionId != "" ==> (AreTargets(connections, p, ids) <==> ids == [p.connectionId])
    ensures p.connectionId == "" ==>
      (AreTargets(connections, p, ids) <==>
        forall c :: c in ids <==> c in connections && connections[c].userId == p.userId)
    ensures AreTasksOf(connections, log, p.userId, p.sinceVersion, ids, tasks) <==>
      && |tasks| <= |ids|
      && forall i :: 0 <= i < |tasks| ==>
        && ids[i] in connections && connections[ids[i]].userId == p.userId
        && tasks[i].sheetId == connections[ids[i]].sheetId
        && Listing(log, p.userId, p.sinceVersion, 1000, tasks[i].events)
  {
  }

  lemma OneMoreTask(connections: map<string, Connection>, log: seq<Event>, userId: string, sinceVersion: int,
                    ids: seq<string>, tasks: seq<Task>, t: Task)
    requires AreTasksOf(connections, log, userId, sinceVersion, ids, tasks) && |tasks| < |ids|
    requires Owns(connections, userId, ids[|tasks|]) && t.sheetId == connections[ids[|tasks|]].sheetId
    requires Listing(log, userId, sinceVersion, EVENT_LIMIT, t.events)
    ensures AreTasksOf(connections, log, userId, sinceVersion, ids, tasks + [t])
  {
  }

  class SyncService {
    var connections: map<string, Connection>
    var log: seq<Event>
    var sheets: Sheets

    constructor (connections: map<string, Connection>, log: seq<Event>)
      ensures this.connections == connections && this.log == log && sheets == map[]
    {
      this.connections, this.log, sheets := connections, log, map[];
    }

    predicate Valid()
      reads this
    {
      KeyedSheets(sheets) && IdsAscend(log)
    }

    /** The sheet's rows, in whatever order the client returns them. */
    method FetchChanges(sheetId: string) returns (remote: seq<SheetRow>)
      requires Valid()
      ensures Enumerates(remote, SheetOf(sheets, sheetId))
    {
      var sheet := if sheetId in sheets then sheets[sheetId] else map[];
      var ids := KeysOf(sheet);
      remote := [];
      for i := 0 to |ids|
        invariant |remote| == i
        invariant forall k :: 0 <= k < i ==> ids[k] in sheet && remote[k] == sheet[ids[k]]
      {
        assert ids[i] in ids;
        remote := remote + [sheet[ids[i]]];
      }
      forall id | id in sheet ensures HasRow(remote, id) {
        var k :| 0 <= k < |ids| && ids[k] == id;
        assert remote[k].rowId == id;
      }
    }

    /** Upsert row by row; a failing client may have written some of them. */
    method ApplyChanges(sheetId: string, rows: seq<SheetRow>, fault: SyncFault) returns (ok: bool)
      modifies this`sheets
      ensures ok == !fault.DuringWrite?
      ensures sheets == old(sheets)[sheetId := Upsert(SheetOf(old(sheets), sheetId),
                                                      if ok || fault.n >= |rows| then rows else rows[..fault.n])]
    {
      var sheet := if sheetId in sheets then sheets[sheetId] else map[];
      var n := if fault.DuringWrite? && fault.n < |rows| then fault.n else |rows|;
      for i := 0 to n
        invariant sheet == Upsert(SheetOf(old(sheets), sheetId), rows[..i])
      {
        assert rows[..i + 1][..i] == rows[..i];
        sheet := sheet[rows[i].rowId := rows[i]];
      }
      assert rows[..|rows|] == rows;
      sheets := sheets[sheetId := sheet];
      ok := !fault.DuringWrite?;
    }

    method SyncUserTransactions(userId: string, connId: string, sinceVersion: int, fault: SyncFault)
      returns (ok: bool, ghost events: seq<Event>)
      requires Valid()
      modifies this`sheets
      ensures Valid() && Listing(log, userId, sinceVersion, 1000, events)
      ensures connId !in connections || connections[connId].userId != userId ==> !ok && sheets == old(sheets)
      ensures connId in connections && connections[connId].userId == userId ==>
        SyncResult(sheets, ok) == SyncOne(old(sheets), Task(connections[connId].sheetId, events), fault)
    {
      var localEvents := ListTransactionEventsSince(log, userId, sinceVersion, EVENT_LIMIT);
      events := localEvents;
      if connId !in connections || connections[connId].userId != userId { return false, events; }
      if fault.BeforeWrite? { return false, events; }
      var sheetId := connections[connId].sheetId;
      var localChanges: seq<SheetRow> := [];
      for i := 0 to |localEvents|
        invariant localChanges == LocalRows(localEvents)[..i]
      {
        localChanges := localChanges + [LocalRow(localEvents[i])];
      }
      assert localChanges == LocalRows(localEvents);
      var remote := FetchChanges(sheetId);
      var merged := MergeSheetRows(localChanges, remote);
      ghost var t := Task(sheetId, events);
      AddRemoteIsJoin(LocalMap(events), remote, SheetOf(sheets, sheetId));
      SyncOneKeyed(sheets, t, fault);
      ok := true;
      if |merged| > 0 {
        ok := ApplyChanges(sheetId, merged, fault);
      }
    }

    /** The user's connections, in whatever order the query returns them; it does not look at deleted_at. */
    method ListActiveByUser(userId: string) returns (ids: seq<string>)
      ensures IsListOf(connections, userId, ids)
      ensures forall c :: c in ids <==> c in connections && connections[c].userId == userId
    {
      ids := [];
      var keys := KeysOf(connections);
      for i := 0 to |keys|
        invariant forall c :: c in ids <==> c in keys[..i] && connections[c].userId == userId
      {
        assert keys[i] in keys;
        assert keys[..i + 1] == keys[..i] + [keys[i]];
        if connections[keys[i]].userId == userId { ids := ids + [keys[i]]; }
      }
      assert keys[..|keys|] == keys;
    }

    /** Sync the given connections in order until one fails. */
    method SyncEach(userId: string, sinceVersion: int, ids: seq<string>, faults: nat -> SyncFault)
      returns (ok: bool, ghost tasks: seq<Task>)
      requires Valid()
      requires forall c :: c in ids ==> c in connections && connections[c].userId == userId
      modifies this`sheets
      ensures (forall i :: faults(i).NoSyncFault?) ==> ok
      ensures Valid() && SyncResult(sheets, ok) == FanOut(old(sheets), tasks, faults)
      ensures AreTasksOf(connections, log, userId, sinceVersion, ids, tasks)
      ensures ok ==> |tasks| == |ids|
    {
      tasks := [];
      ok := true;
      var i := 0;
      while i < |ids| && ok
        invariant 0 <= i <= |ids| && Valid() && |tasks| == i
        invariant SyncResult(sheets, ok) == FanOut(old(sheets), tasks, faults)
        invariant AreTasksOf(connections, log, userId, sinceVersion, ids, tasks)
        invariant (forall i :: faults(i).NoSyncFault?) ==> ok
      {
        ghost var events;
        assert ids[i] in ids;
        ok, events := SyncUserTransactions(userId, ids[i], sinceVersion, faults(i));
        ghost var t := Task(connections[ids[i]].sheetId, events);
        FanOutAppend(old(sheets), tasks, t, faults);
        OneMoreTask(connections, log, userId, sinceVersion, ids, tasks, t);
        tasks := tasks + [t];
        i := i + 1;
      }
    }

    /** The job's own connection. */
    method SyncNamed(p: SyncJobPayload, faults: nat -> SyncFault) returns (ok: bool, ghost tasks: seq<Task>)
      requires Valid() && p.connectionId != ""
      modifies this`sheets
      ensures Valid() && AreTasksOf(connections, log, p.userId, p.sinceVersion, [p.connectionId], tasks)
      ensures Refused(connections, p) ==> !ok && tasks == [] && sheets == old(sheets)
      ensures !Refused(connections, p) ==>
        |tasks| == 1 && SyncResult(sheets, ok) == FanOut(old(sheets), tasks, faults)
      ensures !Refused(connections, p) && (forall i :: faults(i).NoSyncFault?) ==> ok
    {
      tasks := [];
      ghost var events;
      ok, events := SyncUserTransactions(p.userId, p.connectionId, p.sinceVersion, faults(0));
      if !Refused(connections, p) {
        tasks := [Task(connections[p.connectionId].sheetId, events)];
        FanOutAppend(old(sheets), [], tasks[0], faults);
        assert [] + tasks == tasks;
      }
    }

    /** A job for one connection, or, without a connection id, for every connection of the user. */
    method HandleSyncJob(payload: Option<SyncJobPayload>, listFails: bool, faults: nat -> SyncFault)
      returns (ok: bool, ghost targets: seq<string>, ghost tasks: seq<Task>)
      requires Valid()
      modifies this`sheets
      ensures Valid()
      ensures payload.None? || (payload.value.connectionId == "" && listFails) ==> !ok && sheets == old(sheets)
      ensures payload.Some? && !(payload.value.connectionId == "" && listFails) ==>
        && AreTargets(connections, payload.value, targets)
        && AreTasksOf(connections, log, payload.value.userId, payload.value.sinceVersion, targets, tasks)
        && (ok ==> |tasks| == |targets|)
        && (if Refused(connections, payload.value) then !ok && sheets == old(sheets)
            else SyncResult(sheets, ok) == FanOut(old(sheets), tasks, faults))
      ensures payload.Some? && (forall i :: faults(i).NoSyncFault?) ==>
        (ok <==> !Refused(connections, payload.value) && !(payload.value.connectionId == "" && listFails))
    {
      targets, tasks := [], [];
      if payload.None? { return false, targets, tasks; }
      var p := payload.value;
      if p.connectionId != "" {
        targets := [p.connectionId];
        ok, tasks := SyncNamed(p, faults);
        return ok, targets, tasks;
      }
      if listFails { return false, targets, tasks; }
      var ids := ListActiveByUser(p.userId);
      targets := ids;
      ok, tasks := SyncEach(p.userId, p.sinceVersion, ids, faults);
    }
  }

  /** The tasks of one job in order, stopping at the first that fails. */
  ghost function FanOut(sheets: Sheets, tasks: seq<Task>, faults: nat -> SyncFault): SyncResult
  {
    if |tasks| == 0 then SyncResult(sheets, true)
    else
      var n := |tasks| - 1;
      var r := FanOut(sheets, tasks[..n], faults);
      if r.ok then SyncOne(r.sheets, tasks[n], faults(n)) else r
  }

  lemma FanOutAppend(sheets: Sheets, tasks: seq<Task>, t: Task, faults: nat -> SyncFault)
    ensures FanOut(sheets, tasks + [t], faults) ==
      var r := FanOut(sheets, tasks, faults); if r.ok then SyncOne(r.sheets, t, faults(|tasks|)) else r
  {
    assert (tasks + [t])[..|tasks|] == tasks;
  }

  /** A call that does not fail succeeds, and one that fails before the write, or in one of some rows, does not. */
  lemma SyncOneOkIff(sheets: Sheets, t: Task, fault: SyncFault)
    ensures SyncOne(sheets, t, fault).ok <==>
      fault.NoSyncFault? || (fault.DuringWrite? && |Rows(Target(sheets, t))| == 0)
  {
  }

  lemma {:induction false} QuietFanOutSucceeds(sheets: Sheets, tasks: seq<Task>, faults: nat -> SyncFault)
    requires forall i :: faults(i).NoSyncFault?
    ensures FanOut(sheets, tasks, faults).ok
    decreases |tasks|
  {
    if |tasks| > 0 {
      QuietFanOutSucceeds(sheets, tasks[..|tasks| - 1], faults);
    }
  }

  lemma {:induction false} UpsertKeyed(sheet: RowMap, rows: seq<SheetRow>)
    requires Keyed(sheet)
    ensures Keyed(Upsert(sheet, rows))
    decreases |rows|
  {
    if |rows| > 0 {
      UpsertKeyed(sheet, rows[..|rows| - 1]);
    }
  }

  lemma SyncOneKeyed(sheets: Sheets, t: Task, fault: SyncFault)
    requires KeyedSheets(sheets)
    ensures KeyedSheets(SyncOne(sheets, t, fault).sheets)
  {
    var rows := Rows(Target(sheets, t));
    UpsertKeyed(SheetOf(sheets, t.sheetId), rows);
    if fault.DuringWrite? {
      UpsertKeyed(SheetOf(sheets, t.sheetId), Written(rows, fault.n));
    }
  }
}
