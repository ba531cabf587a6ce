/**
 Sync jobs may be processed in any order, any number of times, and may fail part way: the sheets end
 up the same, as long as the jobs read one event log in which (entity, version) names one event.
 */
module SyncConvergence {
  import opened Ledger
  import opened SheetRows
  import opened Merge
  import opened MergeAlgebra
  import opened SheetSync

  predicate UniqueVersions(log: seq<Event>)
  {
    forall d, e :: d in log && e in log && d.entityId == e.entityId && d.version == e.version ==> d == e
  }

  predicate ReadsLog(log: seq<Event>, t: Task)
  {
    forall e :: e in t.events ==> e in log
  }

  predicate AllReadLog(log: seq<Event>, tasks: seq<Task>)
  {
    forall i :: 0 <= i < |tasks| ==> ReadsLog(log, tasks[i])
  }

  // ------------------------------------------------------------------ two jobs

  /** Where two sets of local rows have the same version of a row, it is the same row. */
  predicate Agree(l: RowMap, m: RowMap)
  {
    forall id :: id in l && id in m && Version(l[id]) == Version(m[id]) ==> l[id] == m[id]
  }

  lemma JobsAgree(log: seq<Event>, t: Task, u: Task)
    requires UniqueVersions(log) && ReadsLog(log, t) && ReadsLog(log, u)
    ensures Agree(LocalMap(t.events), LocalMap(u.events))
  {
    var l, m := LocalMap(t.events), LocalMap(u.events);
    forall id | id in l && id in m && Version(l[id]) == Version(m[id]) ensures l[id] == m[id] {
      var d := NewestEventEntersMerge(t.events, id);
      var e := NewestEventEntersMerge(u.events, id);
      LocalRowRank(d);
      LocalRowRank(e);
    }
  }

  lemma JoinsCommuteAt(l: RowMap, m: RowMap, sheet: RowMap, id: string)
    requires Agree(l, m) && (id in l || id in m || id in sheet)
    ensures Join(l, Join(m, sheet))[id] == Join(m, Join(l, sheet))[id]
  {
  }

  lemma JoinsCommute(l: RowMap, m: RowMap, sheet: RowMap)
    requires Agree(l, m)
    ensures Join(l, Join(m, sheet)) == Join(m, Join(l, sheet))
  {
    var a, b := Join(l, Join(m, sheet)), Join(m, Join(l, sheet));
    assert a.Keys == b.Keys;
    forall id | id in a ensures a[id] == b[id] {
      JoinsCommuteAt(l, m, sheet, id);
    }
  }

  lemma JoinTwice(l: RowMap, sheet: RowMap)
    ensures Join(l, Join(l, sheet)) == Join(l, sheet)
  {
  }

  /** What a job that does not fail leaves on each sheet. */
  lemma SyncedSheet(sheets: Sheets, t: Task, id: string)
    ensures SheetOf(Synced(sheets, t), id) == if id == t.sheetId then Target(sheets, t) else SheetOf(sheets, id)
  {
    if Target(sheets, t) == map[] {
      assert forall x :: x in SheetOf(sheets, t.sheetId) ==> x in Target(sheets, t);
    }
  }

  /** A second job on the same sheet decides alone what the sheet holds. */
  lemma SyncedOnSameSheet(sheets: Sheets, t: Task, u: Task)
    requires t.sheetId == u.sheetId
    ensures var m := Join(LocalMap(u.events), Target(sheets, t));
      Synced(Synced(sheets, t), u) == if m == map[] then sheets else sheets[u.sheetId := m]
  {
    SyncedSheet(sheets, t, u.sheetId);
    var m := Join(LocalMap(u.events), Target(sheets, t));
    assert Target(Synced(sheets, t), u) == m;
    if m == map[] {
      assert forall x :: x in Target(sheets, t) ==> x in m;
    }
  }

  lemma OtherSheetsCommute(sheets: Sheets, t: Task, u: Task)
    requires t.sheetId != u.sheetId
    ensures Synced(Synced(sheets, t), u) == Synced(Synced(sheets, u), t)
  {
    SyncedSheet(sheets, t, u.sheetId);
    SyncedSheet(sheets, u, t.sheetId);
    assert Target(Synced(sheets, t), u) == Target(sheets, u);
    assert Target(Synced(sheets, u), t) == Target(sheets, t);
  }

  /** Two jobs in either order leave the same sheets. */
  lemma TwoJobsCommute(log: seq<Event>, sheets: Sheets, t: Task, u: Task)
    requires UniqueVersions(log) && ReadsLog(log, t) && ReadsLog(log, u)
    ensures Synced(Synced(sheets, t), u) == Synced(Synced(sheets, u), t)
  {
    if t.sheetId == u.sheetId {
      JobsAgree(log, t, u);
      SyncedOnSameSheet(sheets, t, u);
      SyncedOnSameSheet(sheets, u, t);
      JoinsCommute(LocalMap(u.events), LocalMap(t.events), SheetOf(sheets, t.sheetId));
    } else {
      OtherSheetsCommute(sheets, t, u);
    }
  }

  /** A job processed again with the same events changes nothing. */
  lemma JobTwice(sheets: Sheets, t: Task)
    ensures Synced(Synced(sheets, t), t) == Synced(sheets, t)
  {
    JoinTwice(LocalMap(t.events), SheetOf(sheets, t.sheetId));
  }

  // ------------------------------------------------------------------ any number of jobs

  function SyncAll(sheets: Sheets, tasks: seq<Task>): Sheets
  {
    if |tasks| == 0 then sheets else Synced(SyncAll(sheets, tasks[..|tasks| - 1]), tasks[|tasks| - 1])
  }

  /** One job may be moved from before a series of jobs to after it. */
  lemma {:induction false} JobPassesSeries(log: seq<Event>, sheets: Sheets, t: Task, tasks: seq<Task>)
    requires UniqueVersions(log) && ReadsLog(log, t) && AllReadLog(log, tasks)
    ensures SyncAll(Synced(sheets, t), tasks) == Synced(SyncAll(sheets, tasks), t)
    decreases |tasks|
  {
    if |tasks| > 0 {
      var front, u := tasks[..|tasks| - 1], tasks[|tasks| - 1];
      JobPassesSeries(log, sheets, t, front);
      TwoJobsCommute(log, SyncAll(sheets, front), t, u);
    }
  }

  /** A job that is already part of the series adds nothing. */
  lemma {:induction false} JobAbsorbed(log: seq<Event>, sheets: Sheets, t: Task, tasks: seq<Task>)
    requires UniqueVersions(log) && AllReadLog(log, tasks) && t in tasks
    ensures Synced(SyncAll(sheets, tasks), t) == SyncAll(sheets, tasks)
    decreases |tasks|
  {
    var front, u := tasks[..|tasks| - 1], tasks[|tasks| - 1];
    if t == u {
      JobTwice(SyncAll(sheets, front), t);
    } else {
      assert t in front;
      JobAbsorbed(log, sheets, t, front);
      var k :| 0 <= k < |tasks| && tasks[k] == t;
      TwoJobsCommute(log, SyncAll(sheets, front), u, t);
    }
  }

  lemma {:induction false} SeriesAbsorbed(log: seq<Event>, sheets: Sheets, tasks: seq<Task>, again: seq<Task>)
    requires UniqueVersions(log) && AllReadLog(log, tasks) && forall t :: t in again ==> t in tasks
    ensures SyncAll(SyncAll(sheets, tasks), again) == SyncAll(sheets, tasks)
    decreases |again|
  {
    if |again| > 0 {
      SeriesAbsorbed(log, sheets, tasks, again[..|again| - 1]);
      JobAbsorbed(log, sheets, again[|again| - 1], tasks);
    }
  }

  lemma {:induction false} SeriesCommute(log: seq<Event>, sheets: Sheets, a: seq<Task>, b: seq<Task>)
    requires UniqueVersions(log) && AllReadLog(log, a) && AllReadLog(log, b)
    ensures SyncAll(SyncAll(sheets, a), b) == SyncAll(SyncAll(sheets, b), a)
    decreases |a|
  {
    if |a| > 0 {
      var front, t := a[..|a| - 1], a[|a| - 1];
      JobPassesSeries(log, SyncAll(sheets, front), t, b);
      SeriesCommute(log, sheets, front, b);
    }
  }

  /**
   Convergence: any two series that process the same jobs, each at least once, in any order and with
   any repetitions, leave the same sheets.
   */
  lemma SyncConverges(log: seq<Event>, sheets: Sheets, a: seq<Task>, b: seq<Task>)
    requires UniqueVersions(log) && AllReadLog(log, a) && AllReadLog(log, b)
    requires forall t :: t in a <==> t in b
    ensures SyncAll(sheets, a) == SyncAll(sheets, b)
  {
    SeriesAbsorbed(log, sheets, a, b);
    SeriesAbsorbed(log, sheets, b, a);
    SeriesCommute(log, sheets, a, b);
  }

  // ------------------------------------------------------------------ failures part way

  /** Between the old sheet and the merged one: each row is one or the other. */
  predicate Between(part: RowMap, sheet: RowMap, target: RowMap)
  {
    && sheet.Keys <= part.Keys <= target.Keys
    && forall id :: id in part ==> part[id] == target[id] || (id in sheet && part[id] == sheet[id])
  }

  lemma PartialIsBetween(sheets: Sheets, t: Task, n: nat)
    requires KeyedSheets(sheets)
    ensures var rows := Rows(Target(sheets, t));
      Between(Upsert(SheetOf(sheets, t.sheetId), Written(rows, n)), SheetOf(sheets, t.sheetId), Target(sheets, t))
  {
    var target := Target(sheets, t);
    TargetKeyed(sheets, t);
    RowsEnumerate(target);
    UpsertMeans(SheetOf(sheets, t.sheetId), Written(Rows(target), n), target);
    forall id | HasRow(Written(Rows(target), n), id) ensures id in target { }
  }

  lemma JoinFromBetween(l: RowMap, sheet: RowMap, part: RowMap)
    requires Between(part, sheet, Join(l, sheet))
    ensures Join(l, part) == Join(l, sheet)
  {
    var a, b := Join(l, part), Join(l, sheet);
    assert a.Keys == b.Keys;
    forall id | id in a ensures a[id] == b[id] { }
  }

  lemma NoRowsMeansEmpty(m: RowMap)
    ensures |Rows(m)| == 0 <==> m == map[]
  {
  }

  /** However one sync failed, syncing again reaches the state of a sync that did not fail. */
  lemma FailedSyncIsRepaired(sheets: Sheets, t: Task, fault: SyncFault)
    requires KeyedSheets(sheets)
    ensures Synced(SyncOne(sheets, t, fault).sheets, t) == Synced(sheets, t)
  {
    var target := Target(sheets, t);
    var rows, sheet := Rows(target), SheetOf(sheets, t.sheetId);
    NoRowsMeansEmpty(target);
    if fault.DuringWrite? {
      PartialIsBetween(sheets, t, fault.n);
      JoinFromBetween(LocalMap(t.events), sheet, Upsert(sheet, Written(rows, fault.n)));
    } else if fault.NoSyncFault? {
      FullWriteReachesTarget(sheets, t);
      JoinTwice(LocalMap(t.events), sheet);
    }
  }

  /** A sync that reports success has written the whole merge. */
  lemma SuccessIsSynced(sheets: Sheets, t: Task, fault: SyncFault)
    requires KeyedSheets(sheets) && SyncOne(sheets, t, fault).ok
    ensures SyncOne(sheets, t, fault).sheets == Synced(sheets, t)
  {
    NoRowsMeansEmpty(Target(sheets, t));
    FullWriteReachesTarget(sheets, t);
  }

  lemma {:induction false} SyncAllKeyed(sheets: Sheets, tasks: seq<Task>)
    requires KeyedSheets(sheets)
    ensures KeyedSheets(SyncAll(sheets, tasks))
    decreases |tasks|
  {
    if |tasks| > 0 {
      var front := SyncAll(sheets, tasks[..|tasks| - 1]);
      SyncAllKeyed(sheets, tasks[..|tasks| - 1]);
      TargetKeyed(front, tasks[|tasks| - 1]);
    }
  }

  /** A fan-out that stops has fully synced exactly the tasks before the failing one and not touched those after it. */
  lemma {:induction false} FanOutSyncsPrefix(sheets: Sheets, tasks: seq<Task>, faults: nat -> SyncFault)
    returns (done: nat)
    requires KeyedSheets(sheets)
    ensures done <= |tasks|
    ensures var r := FanOut(sheets, tasks, faults);
      && (r.ok <==> done == |tasks|)
      && (r.ok ==> r.sheets == SyncAll(sheets, tasks))
      && (!r.ok ==> r == SyncOne(SyncAll(sheets, tasks[..done]), tasks[done], faults(done)))
    decreases |tasks|
  {
    done := 0;
    if |tasks| > 0 {
      var front := tasks[..|tasks| - 1];
      done := FanOutSyncsPrefix(sheets, front, faults);
      SyncAllKeyed(sheets, front);
      if done == |front| {
        assert tasks[..done] == front;
        var t, fault := tasks[done], faults(done);
        if SyncOne(SyncAll(sheets, front), t, fault).ok {
          SuccessIsSynced(SyncAll(sheets, front), t, fault);
          done := done + 1;
        }
      } else {
        assert front[..done] == tasks[..done];
      }
    }
  }

  /** After a failed fan-out, running the whole job again ends where one uninterrupted run would have ended. */
  lemma RetryRepairs(log: seq<Event>, sheets: Sheets, tasks: seq<Task>, faults: nat -> SyncFault)
    requires KeyedSheets(sheets) && UniqueVersions(log) && AllReadLog(log, tasks)
    ensures SyncAll(FanOut(sheets, tasks, faults).sheets, tasks) == SyncAll(sheets, tasks)
  {
    var r := FanOut(sheets, tasks, faults);
    var done := FanOutSyncsPrefix(sheets, tasks, faults);
    SyncAllKeyed(sheets, tasks[..done]);
    if r.ok {
      SeriesAbsorbed(log, sheets, tasks, tasks);
    } else {
      var t, before := tasks[done], SyncAll(sheets, tasks[..done]);
      FailedSyncIsRepaired(before, t, faults(done));
      SyncAgainFirst(log, r.sheets, t, tasks);
      SyncAgainFirst(log, before, t, tasks);
      SeriesCommute(log, sheets, tasks[..done], tasks);
      SeriesAbsorbed(log, sheets, tasks, tasks[..done]);
    }
  }

  /** What a fan-out did up to its failure is all it did. */
  lemma {:induction false} FanOutFailureSticks(sheets: Sheets, tasks: seq<Task>, n: nat, faults: nat -> SyncFault)
    requires n <= |tasks| && !FanOut(sheets, tasks[..n], faults).ok
    ensures FanOut(sheets, tasks, faults) == FanOut(sheets, tasks[..n], faults)
    decreases |tasks|
  {
    if n < |tasks| {
      assert tasks[..|tasks| - 1][..n] == tasks[..n];
      FanOutFailureSticks(sheets, tasks[..|tasks| - 1], n, faults);
    } else {
      assert tasks[..n] == tasks;
    }
  }

  /** A job that failed after attempting only the first of its tasks is repaired by running all of them. */
  lemma FailedPrefixIsRepaired(log: seq<Event>, sheets: Sheets, tasks: seq<Task>, n: nat, faults: nat -> SyncFault)
    requires KeyedSheets(sheets) && UniqueVersions(log) && AllReadLog(log, tasks)
    requires n <= |tasks| && !FanOut(sheets, tasks[..n], faults).ok
    ensures SyncAll(FanOut(sheets, tasks[..n], faults).sheets, tasks) == SyncAll(sheets, tasks)
  {
    FanOutFailureSticks(sheets, tasks, n, faults);
    RetryRepairs(log, sheets, tasks, faults);
  }

  /** Processing one of the jobs first makes no difference to the whole series. */
  lemma SyncAgainFirst(log: seq<Event>, sheets: Sheets, t: Task, tasks: seq<Task>)
    requires UniqueVersions(log) && AllReadLog(log, tasks) && t in tasks
    ensures SyncAll(Synced(sheets, t), tasks) == SyncAll(sheets, tasks)
  {
    JobPassesSeries(log, sheets, t, tasks);
    JobAbsorbed(log, sheets, t, tasks);
  }

  /** The state after a series of attempts at one job, each failing in its own way or not at all. */
  ghost function Attempts(sheets: Sheets, tasks: seq<Task>, faults: seq<nat -> SyncFault>): Sheets
  {
    if |faults| == 0 then sheets
    else FanOut(Attempts(sheets, tasks, faults[..|faults| - 1]), tasks, faults[|faults| - 1]).sheets
  }

  lemma {:induction false} FanOutKeyed(sheets: Sheets, tasks: seq<Task>, faults: nat -> SyncFault)
    requires KeyedSheets(sheets)
    ensures KeyedSheets(FanOut(sheets, tasks, faults).sheets)
    decreases |tasks|
  {
    if |tasks| > 0 {
      var r := FanOut(sheets, tasks[..|tasks| - 1], faults);
      FanOutKeyed(sheets, tasks[..|tasks| - 1], faults);
      SyncOneKeyed(r.sheets, tasks[|tasks| - 1], faults(|tasks| - 1));
    }
  }

  /** Any number of failed attempts, then one that succeeds: the state of one uninterrupted run. */
  lemma {:induction false} EventualSuccess(log: seq<Event>, sheets: Sheets, tasks: seq<Task>,
                                           faults: seq<nat -> SyncFault>, last: nat -> SyncFault)
    requires KeyedSheets(sheets) && UniqueVersions(log) && AllReadLog(log, tasks)
    ensures KeyedSheets(Attempts(sheets, tasks, faults))
    ensures SyncAll(Attempts(sheets, tasks, faults), tasks) == SyncAll(sheets, tasks)
    ensures var r := FanOut(Attempts(sheets, tasks, faults), tasks, last); r.ok ==> r.sheets == SyncAll(sheets, tasks)
    decreases |faults|
  {
    if |faults| > 0 {
      var front := Attempts(sheets, tasks, faults[..|faults| - 1]);
      EventualSuccess(log, sheets, tasks, faults[..|faults| - 1], last);
      FanOutKeyed(front, tasks, faults[|faults| - 1]);
      RetryRepairs(log, front, tasks, faults[|faults| - 1]);
    }
    var _ := FanOutSyncsPrefix(Attempts(sheets, tasks, faults), tasks, last);
  }
}
