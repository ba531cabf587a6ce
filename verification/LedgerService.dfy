/**
 The service calls as imperative code over one database connection: begin, write the row, write the
 event, commit or roll back, then enqueue the sync job. Each call is one `Ledger.Next` step.
 */
module LedgerService {
  import opened Wrappers
  import opened Ledger

  class Database {
    var table: map<string, Row>
    var log: seq<Event>
    var nextEventId: int
    var savedTable: map<string, Row>
    var savedLog: seq<Event>

    constructor ()
      ensures Contents() == EMPTY_STORE
    {
      table, log, nextEventId := map[], [], 1;
      savedTable, savedLog := map[], [];
    }

    function Contents(): Store
      reads this
    {
      Store(table, log, nextEventId)
    }

    method Begin(fault: Fault) returns (ok: bool)
      modifies this`savedTable, this`savedLog
      ensures ok == !fault.AtBegin?
      ensures savedTable == table && savedLog == log
    {
      savedTable, savedLog := table, log;
      ok := !fault.AtBegin?;
    }

    /** Undo the writes of the open transaction; the event sequence keeps its value. */
    method Rollback()
      modifies this`table, this`log
      ensures table == savedTable && log == savedLog
    {
      table, log := savedTable, savedLog;
    }

    method InsertTransaction(row: Row, fault: Fault) returns (ok: bool)
      modifies this`table
      ensures ok == (!fault.AtWrite? && row.id !in old(table) && Checked(row.content))
      ensures table == if ok then old(table)[row.id := row] else old(table)
    {
      ok := !fault.AtWrite? && row.id !in table && Checked(row.content);
      if ok { table := table[row.id := row]; }
    }

    method GetTransactionByIdOnly(id: string) returns (r: Result<Row>)
      ensures r.Ok? <==> id in table && table[id].Live()
      ensures r == GetByIdOnly(Contents(), id)
    {
      if id in table && table[id].deletedAt == None {
        r := Ok(table[id]);
      } else {
        r := Err("no rows");
      }
    }

    method UpdateTransaction(held: Row, edit: Content, now: int, fault: Fault) returns (r: Result<Row>)
      modifies this`table
      ensures r.Ok? == (!fault.AtWrite? && UpdateMatches(old(Contents()), held) && Checked(Edited(held.content, edit)))
      ensures r.Ok? ==> r.value == UpdatedRow(old(table)[held.id], held, edit, now)
      ensures table == if r.Ok? then old(table)[r.value.id := r.value] else old(table)
    {
      r := Err("update failed");
      if !fault.AtWrite? && held.id in table {
        var current := table[held.id];
        if current.userId == held.userId && current.version == held.version {
          var content := Edited(held.content, edit);
          if content.kind in KINDS {
            var row := Row(current.id, current.userId, content, held.sheetsRowId,
                           current.version + 1, now, current.deletedAt);
            table := table[row.id := row];
            r := Ok(row);
          }
        }
      }
    }

    method SoftDeleteTransactionById(id: string, now: int, fault: Fault) returns (r: Result<Row>)
      modifies this`table
      ensures r.Ok? == (!fault.AtWrite? && id in old(table) && old(table)[id].Live())
      ensures r.Ok? ==> r.value == DeletedRow(old(table)[id], now)
      ensures table == if r.Ok? then old(table)[r.value.id := r.value] else old(table)
    {
      r := Err("no rows");
      if !fault.AtWrite? && id in table && table[id].deletedAt == None {
        var row := table[id];
        row := row.(version := row.version + 1);
        row := row.(lastModified := now, deletedAt := Some(now));
        table := table[row.id := row];
        r := Ok(row);
      }
    }

    method InsertChangeEvent(row: Row, op: string, now: int, fault: Fault) returns (ok: bool)
      modifies this`log, this`nextEventId
      ensures ok == !fault.AtEvent? && nextEventId == old(nextEventId) + 1
      ensures log == if ok then old(log) + [EventFor(old(nextEventId), row, op, now)] else old(log)
    {
      var id := nextEventId;
      nextEventId := nextEventId + 1;
      ok := !fault.AtEvent?;
      if ok {
        log := log + [Event(id, "transaction", row.id, row.userId, op, row.version, Json(row), now)];
      }
    }
  }

  class TransactionService {
    const db: Database
    var jobs: seq<SyncJob>

    constructor (db: Database)
      ensures this.db == db && jobs == []
    {
      this.db := db;
      jobs := [];
    }

    /** The shared state as the step relation sees it, for any rows the other clients hold. */
    function State(held: map<int, Row>): World
      reads this, db
    {
      World(db.Contents(), held, jobs)
    }

    /** The second half of every transactional call: write the event, then commit or roll back. */
    method FinishTx(row: Row, op: string, now: int, fault: Fault) returns (ok: bool)
      modifies db
      ensures ok == (!fault.AtEvent? && !fault.AtCommit?)
      ensures db.nextEventId == old(db.nextEventId) + 1
      ensures ok ==> db.table == old(db.table) && db.log == old(db.log) + [EventFor(old(db.nextEventId), row, op, now)]
      ensures !ok ==> db.table == old(db.savedTable) && db.log == old(db.savedLog)
    {
      ok := db.InsertChangeEvent(row, op, now, fault);
      if ok {
        ok := !fault.AtCommit?;
      }
      if !ok {
        db.Rollback();
      }
    }

    method EnqueueSyncJob(job: SyncJob, queued: bool)
      modifies this`jobs
      ensures jobs == if queued then old(jobs) + [job] else old(jobs)
    {
      if queued { jobs := jobs + [job]; }
    }

    method CreateTransaction(input: CreateInput, id: string, now: int, fault: Fault, queued: bool)
      returns (r: Result<Row>)
      modifies this`jobs, db
      ensures r.Ok? <==>
        fault.NoFault? && id !in old(db.table) && input.content.kind in {"expense", "income", "transfer"}
      ensures r.Ok? ==>
        var c := input.content;
        && r.value == Row(id, input.userId, c.(currency := if c.currency == "" then "IDR" else c.currency,
                                               source := if c.source == "" then "app" else c.source),
                          None, 1, now, None)
        && db.table == old(db.table)[id := r.value]
        && db.log == old(db.log) +
           [Event(old(db.nextEventId), "transaction", id, input.userId, "create", 1, Json(r.value), now)]
        && jobs == old(jobs) + if queued then [SyncJob(input.userId, 0, "create")] else []
      ensures r.Err? ==> db.table == old(db.table) && db.log == old(db.log) && jobs == old(jobs)
      ensures r == Create(old(db.Contents()), input, id, now, fault).result
      ensures forall held :: State(held) == Next(old(State(held)), DoCreate(input, id, now, fault, queued))
    {
      r := Err("insert failed");
      var tx := NewRow(input, id, now);
      var ok := db.Begin(fault);
      if !ok { return; }
      ok := db.InsertTransaction(tx, fault);
      if !ok {
        db.Rollback();
        return;
      }
      ok := FinishTx(tx, "create", now, fault);
      if !ok { return Err("transaction aborted"); }
      EnqueueSyncJob(SyncJob(tx.userId, 0, "create"), queued);
      r := Ok(tx);
    }

    /** The read that UpdateTransaction makes before its database transaction. */
    method LoadForUpdate(client: int, id: string) returns (existing: Result<Row>)
      ensures existing.Ok? <==> id in db.table && db.table[id].deletedAt.None?
      ensures existing.Ok? ==> existing.value == db.table[id]
      ensures forall held ::
        Next(State(held), DoLoad(client, id)) == State(if existing.Ok? then held[client := existing.value] else held)
    {
      existing := db.GetTransactionByIdOnly(id);
    }

    /** The rest of UpdateTransaction, on the row read earlier; other clients may have run in between. */
    method CommitUpdate(client: int, existing: Row, edit: Content, now: int, fault: Fault, queued: bool)
      returns (r: Result<Row>)
      modifies this`jobs, db
      ensures r.Ok? <==>
        && fault.NoFault? && existing.id in old(db.table)
        && old(db.table)[existing.id].userId == existing.userId
        && old(db.table)[existing.id].version == existing.version
        && (if edit.kind == "" then existing.content.kind else edit.kind) in {"expense", "income", "transfer"}
      ensures r.Ok? ==>
        var was, c, row := old(db.table)[existing.id], existing.content, r.value;
        && row == Row(was.id, was.userId, edit.(currency := if edit.currency == "" then c.currency else edit.currency,
                                                kind := if edit.kind == "" then c.kind else edit.kind,
                                                source := if edit.source == "" then c.source else edit.source),
                      existing.sheetsRowId, was.version + 1, now, was.deletedAt)
        && db.table == old(db.table)[row.id := row]
        && db.log == old(db.log) +
           [Event(old(db.nextEventId), "transaction", row.id, row.userId, "update", row.version, Json(row), now)]
        && jobs == old(jobs) + if queued then [SyncJob(row.userId, row.version - 1, "update")] else []
      ensures r.Err? ==> db.table == old(db.table) && db.log == old(db.log) && jobs == old(jobs)
      ensures r == Update(old(db.Contents()), existing, edit, now, fault).result
      ensures forall held: map<int, Row> :: client in held && held[client] == existing ==>
        State(held - {client}) == Next(old(State(held)), DoUpdate(client, edit, now, fault, queued))
    {
      r := Err("update failed");
      var ok := db.Begin(fault);
      if !ok { return; }
      r := db.UpdateTransaction(existing, edit, now, fault);
      if r.Err? {
        db.Rollback();
        return Err("update failed");
      }
      var updated := r.value;
      ok := FinishTx(updated, "update", now, fault);
      if !ok { return Err("transaction aborted"); }
      EnqueueSyncJob(SyncJob(updated.userId, updated.version - 1, "update"), queued);
    }

    method SoftDeleteTransaction(id: string, now: int, fault: Fault, queued: bool) returns (r: Result<Row>)
      modifies this`jobs, db
      ensures r.Ok? <==> fault.NoFault? && id in old(db.table) && old(db.table)[id].deletedAt.None?
      ensures r.Ok? ==>
        var was, row := old(db.table)[id], r.value;
        && row == Row(was.id, was.userId, was.content, was.sheetsRowId, was.version + 1, now, Some(now))
        && db.table == old(db.table)[row.id := row]
        && db.log == old(db.log) +
           [Event(old(db.nextEventId), "transaction", row.id, row.userId, "delete", row.version, Json(row), now)]
        && jobs == old(jobs) + if queued then [SyncJob(row.userId, row.version - 1, "delete")] else []
      ensures r.Err? ==> db.table == old(db.table) && db.log == old(db.log) && jobs == old(jobs)
      ensures r == SoftDelete(old(db.Contents()), id, now, fault).result
      ensures forall held :: State(held) == Next(old(State(held)), DoDelete(id, now, fault, queued))
    {
      r := Err("no rows");
      var ok := db.Begin(fault);
      if !ok { return; }
      r := db.SoftDeleteTransactionById(id, now, fault);
      if r.Err? {
        db.Rollback();
        return Err("no rows");
      }
      var deleted := r.value;
      ok := FinishTx(deleted, "delete", now, fault);
      if !ok { return Err("transaction aborted"); }
      EnqueueSyncJob(SyncJob(deleted.userId, deleted.version - 1, "delete"), queued);
    }
  }
}
