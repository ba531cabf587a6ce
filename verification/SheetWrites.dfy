/**
 What one write to a sheet does when the sheet may have changed since it was fetched: exactly when it
 lowers a row, and what it reaches in any case.
 */
module SheetWrites {
  import opened Ledger
  import opened SheetRows
  import opened Merge
  import opened MergeAlgebra
  import opened SheetSync
  import opened SyncConvergence
  import opened SyncCoverage

  /** No row of any sheet has gone or gone down in version. */
  ghost predicate Rise(a: Sheets, b: Sheets)
  {
    forall sheetId, id :: id in SheetOf(a, sheetId) ==> RowAtLeast(b, sheetId, id, Version(SheetOf(a, sheetId)[id]))
  }

  lemma NothingFalls(sheets: Sheets)
    ensures Rise(sheets, sheets)
  {
  }

  /** The rows that a write reaches before it fails, if it does. */
  ghost function WrittenRows(target: RowMap, fault: SyncFault): seq<SheetRow>
  {
    match fault
    case NoSyncFault => Rows(target)
    case BeforeWrite => []
    case DuringWrite(n) => Written(Rows(target), n)
  }

  /** A written row whose version is below the one the sheet has now. */
  ghost predicate Overtakes(current: RowMap, target: RowMap, written: seq<SheetRow>, id: string)
  {
    HasRow(written, id) && id in target && id in current && Version(target[id]) < Version(current[id])
  }

  ghost predicate Overtaken(current: RowMap, target: RowMap, written: seq<SheetRow>)
  {
    exists id :: Overtakes(current, target, written, id)
  }

  /** What is written are rows of the merge, each under its own id. */
  lemma WrittenFromTarget(target: RowMap, fault: SyncFault)
    requires Keyed(target)
    ensures var rows := WrittenRows(target, fault);
      forall i :: 0 <= i < |rows| ==> rows[i].rowId in target && target[rows[i].rowId] == rows[i]
  {
    RowsEnumerate(target);
  }

  /** What the sheet holds after the write. */
  lemma WriteBackMeans(sheets: Sheets, sheetId: string, target: RowMap, fault: SyncFault, id: string)
    requires Keyed(target)
    ensures var u := SheetOf(WriteBack(sheets, sheetId, target, fault).sheets, sheetId);
      var written, current := WrittenRows(target, fault), SheetOf(sheets, sheetId);
      && (id in u <==> id in current || HasRow(written, id))
      && (id in u ==> if HasRow(written, id) then id in target && u[id] == target[id]
                      else id in current && u[id] == current[id])
  {
    WrittenFromTarget(target, fault);
    UpsertMeans(SheetOf(sheets, sheetId), WrittenRows(target, fault), target);
  }

  lemma OtherSheetsKept(sheets: Sheets, sheetId: string, target: RowMap, fault: SyncFault, other: string)
    requires other != sheetId
    ensures SheetOf(WriteBack(sheets, sheetId, target, fault).sheets, other) == SheetOf(sheets, other)
  {
  }

  /** A write lowers a row of some sheet if and only if it writes a row that has been overtaken. */
  lemma WriteLowersIff(sheets: Sheets, sheetId: string, target: RowMap, fault: SyncFault)
    requires Keyed(target)
    ensures Rise(sheets, WriteBack(sheets, sheetId, target, fault).sheets) <==>
      !Overtaken(SheetOf(sheets, sheetId), target, WrittenRows(target, fault))
  {
    var current, written := SheetOf(sheets, sheetId), WrittenRows(target, fault);
    var sheets' := WriteBack(sheets, sheetId, target, fault).sheets;
    if id :| Overtakes(current, target, written, id) {
      WriteBackMeans(sheets, sheetId, target, fault, id);
      assert !RowAtLeast(sheets', sheetId, id, Version(current[id]));
    } else {
      forall other, id | id in SheetOf(sheets, other)
        ensures RowAtLeast(sheets', other, id, Version(SheetOf(sheets, other)[id]))
      {
        if other == sheetId {
          WriteBackMeans(sheets, sheetId, target, fault, id);
          assert !Overtakes(current, target, written, id);
        } else {
          OtherSheetsKept(sheets, sheetId, target, fault, other);
        }
      }
    }
  }

  /** A merged row is below the present one exactly if the present one is above both rows it was merged from. */
  lemma OvertakesIff(l: RowMap, fetched: RowMap, current: RowMap, written: seq<SheetRow>, id: string)
    requires HasRow(written, id) && id in Join(l, fetched) && id in current
    ensures Overtakes(current, Join(l, fetched), written, id) <==>
      && (id in l ==> Version(l[id]) < Version(current[id]))
      && (id in fetched ==> Version(fetched[id]) < Version(current[id]))
  {
  }

  /** A sheet that has not changed since it was fetched is never lowered. */
  lemma FreshIsNotOvertaken(l: RowMap, fetched: RowMap, written: seq<SheetRow>)
    ensures !Overtaken(fetched, Join(l, fetched), written)
  {
    forall id ensures !Overtakes(fetched, Join(l, fetched), written, id) {
      JoinRanksUp(l, fetched, id);
    }
  }

  /** An undisturbed sync, whole or broken off, lowers no row of any sheet. */
  lemma SyncOneRises(sheets: Sheets, t: Task, fault: SyncFault)
    requires KeyedSheets(sheets)
    ensures Rise(sheets, SyncOne(sheets, t, fault).sheets)
  {
    TargetKeyed(sheets, t);
    WriteLowersIff(sheets, t.sheetId, Target(sheets, t), fault);
    FreshIsNotOvertaken(LocalMap(t.events), SheetOf(sheets, t.sheetId), WrittenRows(Target(sheets, t), fault));
  }

  lemma JoinKeyed(events: seq<Event>, sheet: RowMap)
    requires Keyed(sheet)
    ensures Keyed(Join(LocalMap(events), sheet))
  {
    LocalMapMeans(events);
  }

  lemma WriteBackKeyed(sheets: Sheets, sheetId: string, target: RowMap, fault: SyncFault)
    requires KeyedSheets(sheets) && Keyed(target)
    ensures KeyedSheets(WriteBack(sheets, sheetId, target, fault).sheets)
  {
    UpsertKeyed(SheetOf(sheets, sheetId), Rows(target));
    if fault.DuringWrite? {
      UpsertKeyed(SheetOf(sheets, sheetId), Written(Rows(target), fault.n));
    }
  }

  /** A write that succeeds leaves each row of the merge on the sheet, however stale the merge. */
  lemma SuccessWritesAll(sheets: Sheets, sheetId: string, target: RowMap, fault: SyncFault, id: string)
    requires Keyed(target) && id in target && WriteBack(sheets, sheetId, target, fault).ok
    ensures RowAtLeast(WriteBack(sheets, sheetId, target, fault).sheets, sheetId, id, Version(target[id]))
  {
    NoRowsMeansEmpty(target);
    RowsEnumerate(target);
    WriteBackMeans(sheets, sheetId, target, fault, id);
  }

  /** A successful write of a merge leaves no listed event's row below that event. */
  lemma SuccessReachesEvent(sheets: Sheets, sheetId: string, events: seq<Event>, fetched: RowMap, fault: SyncFault,
                            e: Event)
    requires Keyed(fetched) && VersionOrdered(events) && e in events
    requires WriteBack(sheets, sheetId, Join(LocalMap(events), fetched), fault).ok
    ensures RowAtLeast(WriteBack(sheets, sheetId, Join(LocalMap(events), fetched), fault).sheets, sheetId,
                       e.entityId, e.version)
  {
    var target := Join(LocalMap(events), fetched);
    JoinKeyed(events, fetched);
    LocalMapMeans(events);
    var i :| 0 <= i < |events| && events[i] == e;
    assert AboutEntity(events, e.entityId);
    var d := NewestEventEntersMerge(events, e.entityId);
    LocalRowRank(d);
    JoinRanksUp(LocalMap(events), fetched, e.entityId);
    SuccessWritesAll(sheets, sheetId, target, fault, e.entityId);
  }
}
