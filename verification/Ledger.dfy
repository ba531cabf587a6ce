/**
 The transactions table and its transactional outbox: data model, the effect of one committed or
 aborted database transaction, and the step relation of many clients working on one database.
 */
module Ledger {
  import opened Wrappers

  /** A point in time, split so that its UTC calendar month (counted from a fixed origin) is visible. */
  datatype Instant = Instant(month: int, offset: int)

  /** The columns of a transaction that its owner may edit. Amounts are integer cents. */
  datatype Content = Content(
    accountId: string, amount: int, currency: string, kind: string,
    categoryId: Option<string>, description: Option<string>,
    occurredAt: Instant, metadata: string, source: string)

  datatype Row = Row(
    id: string, userId: string, content: Content, sheetsRowId: Option<string>,
    version: int, lastModified: int, deletedAt: Option<int>)
  {
    predicate Live() { deletedAt.None? }
  }

  /** JSON text of a row, or bytes that do not unmarshal. */
  datatype Payload = NotJson | Json(row: Row)

  datatype Event = Event(
    id: int, entityType: string, entityId: string, userId: string,
    opType: string, version: int, payload: Payload, createdAt: int)

  /** `nextEventId` is the sequence behind BIGSERIAL: an aborted transaction does not give its value back. */
  datatype Store = Store(table: map<string, Row>, log: seq<Event>, nextEventId: int)

  const EMPTY_STORE := Store(map[], [], 1)

  /** Where a database transaction fails, if it does. */
  datatype Fault = NoFault | AtBegin | AtWrite | AtEvent | AtCommit

  datatype Outcome = Outcome(store: Store, result: Result<Row>)

  // ------------------------------------------------------------------ inputs

  datatype CreateInput = CreateInput(userId: string, content: Content)

  /** Empty currency and source take their defaults before the insert. */
  function NewRow(input: CreateInput, id: string, now: int): Row
  {
    var c := input.content;
    var c1 := c.(currency := if c.currency == "" then "IDR" else c.currency,
                 source := if c.source == "" then "app" else c.source);
    Row(id, input.userId, c1, None, 1, now, None)
  }

  /** Full update, except that an empty currency, type or source keeps the old one. */
  function Edited(c: Content, edit: Content): Content
  {
    edit.(currency := if edit.currency == "" then c.currency else edit.currency,
          kind := if edit.kind == "" then c.kind else edit.kind,
          source := if edit.source == "" then c.source else edit.source)
  }

  const KINDS := {"expense", "income", "transfer"}

  /** The table's CHECK on the type column. */
  predicate Checked(c: Content)
  {
    c.kind in KINDS
  }

  // ------------------------------------------------------------------ one database transaction

  function EventFor(id: int, row: Row, op: string, now: int): Event
  {
    Event(id, "transaction", row.id, row.userId, op, row.version, Json(row), now)
  }

  /** Both writes become visible together, or only the sequence value is gone. */
  function Finish(s: Store, row: Row, op: string, now: int, fault: Fault): Outcome
  {
    if fault.NoFault? then
      Outcome(Store(s.table[row.id := row], s.log + [EventFor(s.nextEventId, row, op, now)], s.nextEventId + 1),
        Ok(row))
    else
      Outcome(s.(nextEventId := s.nextEventId + 1), Err("transaction aborted"))
  }

  predicate FailsEarly(fault: Fault)
  {
    fault.AtBegin? || fault.AtWrite?
  }

  function Create(s: Store, input: CreateInput, id: string, now: int, fault: Fault): Outcome
  {
    var row := NewRow(input, id, now);
    if FailsEarly(fault) || id in s.table || !Checked(row.content) then Outcome(s, Err("insert failed"))
    else Finish(s, row, "create", now, fault)
  }

  /** SELECT ... WHERE id = $1 AND deleted_at IS NULL. */
  function GetByIdOnly(s: Store, id: string): Result<Row>
  {
    if id in s.table && s.table[id].Live() then Ok(s.table[id]) else Err("no rows")
  }

  /** The WHERE clause of the update: id, user and version, and nothing about deleted_at. */
  predicate UpdateMatches(s: Store, held: Row)
  {
    held.id in s.table && s.table[held.id].userId == held.userId && s.table[held.id].version == held.version
  }

  /** The row the UPDATE writes: deleted_at is whatever the table holds, the rest comes from the client. */
  function UpdatedRow(current: Row, held: Row, edit: Content, now: int): Row
  {
    current.(content := Edited(held.content, edit), sheetsRowId := held.sheetsRowId,
             version := current.version + 1, lastModified := now)
  }

  function Update(s: Store, held: Row, edit: Content, now: int, fault: Fault): Outcome
  {
    if FailsEarly(fault) || !UpdateMatches(s, held) || !Checked(Edited(held.content, edit)) then
      Outcome(s, Err("update failed"))
    else
      Finish(s, UpdatedRow(s.table[held.id], held, edit, now), "update", now, fault)
  }

  function DeletedRow(current: Row, now: int): Row
  {
    current.(version := current.version + 1, lastModified := now, deletedAt := Some(now))
  }

  function SoftDelete(s: Store, id: string, now: int, fault: Fault): Outcome
  {
    if FailsEarly(fault) || id !in s.table || !s.table[id].Live() then Outcome(s, Err("no rows"))
    else Finish(s, DeletedRow(s.table[id], now), "delete", now, fault)
  }

  // ------------------------------------------------------------------ many clients

  datatype SyncJob = SyncJob(userId: string, sinceVersion: int, operation: string)

  function JobFor(row: Row, op: string): SyncJob
  {
    SyncJob(row.userId, if op == "create" then 0 else row.version - 1, op)
  }

  /** The shared database, the row each client holds between its read and its commit, and the queued jobs. */
  datatype World = World(store: Store, held: map<int, Row>, jobs: seq<SyncJob>)

  const INITIAL := World(EMPTY_STORE, map[], [])

  /** One atomic step. `queued` is false when the enqueue after a commit fails; that error is dropped. */
  datatype Action =
    | DoCreate(input: CreateInput, id: string, now: int, fault: Fault, queued: bool)
    | DoLoad(client: int, id: string)
    | DoUpdate(client: int, edit: Content, now: int, fault: Fault, queued: bool)
    | DoDelete(id: string, now: int, fault: Fault, queued: bool)

  function After(w: World, o: Outcome, op: string, queued: bool): World
  {
    w.(store := o.store, jobs := if o.result.Ok? && queued then w.jobs + [JobFor(o.result.value, op)] else w.jobs)
  }

  function Next(w: World, a: Action): World
  {
    match a
    case DoCreate(input, id, now, fault, queued) => After(w, Create(w.store, input, id, now, fault), "create", queued)
    case DoLoad(client, id) =>
      var r := GetByIdOnly(w.store, id);
      if r.Ok? then w.(held := w.held[client := r.value]) else w
    case DoUpdate(client, edit, now, fault, queued) =>
      if client !in w.held then w
      else After(w, Update(w.store, w.held[client], edit, now, fault), "update", queued).(held := w.held - {client})
    case DoDelete(id, now, fault, queued) => After(w, SoftDelete(w.store, id, now, fault), "delete", queued)
  }

  /** A whole run: any interleaving of the clients' steps. */
  function Run(w: World, actions: seq<Action>): World
  {
    if |actions| == 0 then w
    else Next(Run(w, actions[..|actions| - 1]), actions[|actions| - 1])
  }
}
