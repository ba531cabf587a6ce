/**
 Running one job again. A job names a user, a connection and a sinceVersion, not events; here is exactly
 when a second run of it, which lists the events anew, leaves the sheets as they are.
 */
module JobRepetition {
  import opened Ledger
  import opened SheetSync
  import opened SyncConvergence
  import opened ListingChoice
  import opened SyncCoverage
  import LedgerHistory

  /** However the query chooses in two runs of one job over one log, the second run changes nothing. */
  ghost predicate RepeatChangesNothing(log: seq<Event>, user: string, since: int, limit: nat)
  {
    forall sheets: Sheets, sheetId: string, a: seq<Event>, b: seq<Event> ::
      Listing(log, user, since, limit, a) && Listing(log, user, since, limit, b) ==>
        Synced(Synced(sheets, Task(sheetId, a)), Task(sheetId, b)) == Synced(sheets, Task(sheetId, a))
  }

  /** Two listings of the same events in version order give the same local row of an id. */
  lemma SameEventsSameRow(log: seq<Event>, a: seq<Event>, b: seq<Event>, id: string)
    requires UniqueVersions(log) && (forall e :: e in a ==> e in log) && VersionOrdered(a) && VersionOrdered(b)
    requires Members(a) == Members(b) && id in LocalMap(a)
    ensures id in LocalMap(b) && LocalMap(a)[id] == LocalMap(b)[id]
  {
    LocalMapMeans(b);
    var d := NewestEventEntersMerge(a, id);
    assert d in Members(a);
    var i :| 0 <= i < |b| && b[i] == d;
    assert AboutEntity(b, id);
    var e := NewestEventEntersMerge(b, id);
    assert e in Members(a);
  }

  lemma SameEventsSameRows(log: seq<Event>, a: seq<Event>, b: seq<Event>)
    requires UniqueVersions(log) && (forall e :: e in a ==> e in log) && VersionOrdered(a) && VersionOrdered(b)
    requires Members(a) == Members(b)
    ensures LocalMap(a) == LocalMap(b)
  {
    forall e | e in b ensures e in log {
      assert e in Members(a);
    }
    forall id | id in LocalMap(a) ensures id in LocalMap(b) && LocalMap(a)[id] == LocalMap(b)[id] {
      SameEventsSameRow(log, a, b, id);
    }
    forall id | id in LocalMap(b) ensures id in LocalMap(a) {
      SameEventsSameRow(log, b, a, id);
    }
  }

  /** With the same events the second run changes nothing. */
  lemma SameEventsTwice(log: seq<Event>, sheets: Sheets, sheetId: string, a: seq<Event>, b: seq<Event>)
    requires UniqueVersions(log) && (forall e :: e in a ==> e in log) && VersionOrdered(a) && VersionOrdered(b)
    requires Members(a) == Members(b)
    ensures Synced(Synced(sheets, Task(sheetId, a)), Task(sheetId, b)) == Synced(sheets, Task(sheetId, a))
  {
    SameEventsSameRows(log, a, b);
    JobTwice(sheets, Task(sheetId, a));
  }

  /** An event that only the second run listed moves its row. */
  lemma NewEventMovesRow(log: seq<Event>, user: string, since: int, limit: nat, a: seq<Event>, b: seq<Event>, e: Event)
    requires UniqueVersions(log) && Listing(log, user, since, limit, a) && Listing(log, user, since, limit, b)
    requires e in b && e !in a
    ensures Synced(Synced(map[], Task("s", a)), Task("s", b)) != Synced(map[], Task("s", a))
  {
    var once := Synced(map[], Task("s", a));
    SyncFromNothing(Task("s", a));
    if e.entityId in LocalMap(a) {
      var d := NewestEventEntersMerge(a, e.entityId);
      LocalRowRank(d);
      assert d.version < e.version;
    }
    assert !RowAtLeast(once, "s", e.entityId, e.version);
    RowReachesListedEvents(once, Task("s", b), e);
  }

  /** With different events one of the two orders changes something. */
  lemma DifferentEventsDiffer(log: seq<Event>, user: string, since: int, limit: nat, a: seq<Event>, b: seq<Event>)
    requires UniqueVersions(log) && Listing(log, user, since, limit, a) && Listing(log, user, since, limit, b)
    requires Members(a) != Members(b)
    ensures !RepeatChangesNothing(log, user, since, limit)
  {
    if e :| e in b && e !in a {
      NewEventMovesRow(log, user, since, limit, a, b, e);
    } else {
      var e :| e in a && e !in b;
      NewEventMovesRow(log, user, since, limit, b, a, e);
    }
  }

  /**
   A job run again over the same log changes nothing, whatever the two runs list, if and only if everything
   selected fits under the limit or the limit falls on a version boundary.
   */
  lemma RepeatChangesNothingIff(log: seq<Event>, user: string, since: int, limit: nat)
    requires UniqueVersions(log)
    ensures RepeatChangesNothing(log, user, since, limit) <==> CleanCut(SelectedSet(log, user, since), limit)
  {
    SameSetIff(log, user, since, limit);
    if SameSetAlways(log, user, since, limit) {
      forall sheets: Sheets, sheetId: string, a: seq<Event>, b: seq<Event>
        | Listing(log, user, since, limit, a) && Listing(log, user, since, limit, b)
        ensures Synced(Synced(sheets, Task(sheetId, a)), Task(sheetId, b)) == Synced(sheets, Task(sheetId, a))
      {
        SameEventsTwice(log, sheets, sheetId, a, b);
      }
    } else {
      var a, b :|
        Listing(log, user, since, limit, a) && Listing(log, user, since, limit, b) && Members(a) != Members(b);
      DifferentEventsDiffer(log, user, since, limit, a, b);
    }
  }

  /** After more creates by one user than the limit, running the first job again can change the sheet. */
  lemma ManyCreatesMakeRepeatsDiffer(n: nat, limit: nat)
    requires 0 < limit < n
    ensures !RepeatChangesNothing(Run(INITIAL, Creates(n)).store.log, "u", 0, limit)
  {
    var w := Run(INITIAL, Creates(n));
    LedgerHistory.RunKeepsInv(INITIAL, Creates(n));
    LedgerVersionsAreUnique(w.store.log);
    ManyCreatesLeaveChoice(n, limit);
    SameSetIff(w.store.log, "u", 0, limit);
    RepeatChangesNothingIff(w.store.log, "u", 0, limit);
  }
}
