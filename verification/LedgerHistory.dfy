/**
 What every run of the ledger keeps: the log replays to the table, versions are gap-free,
 no update is lost and a soft-deleted row is frozen.
 */
module LedgerHistory {
  import opened Wrappers
  import opened Ledger

  type Table = map<string, Row>

  // ------------------------------------------------------------------ strict replay

  /** The event records its own row: identity, version and owner agree, and the row passes the table's CHECK. */
  predicate SelfConsistent(e: Event)
  {
    && e.entityType == "transaction" && e.payload.Json?
    && e.payload.row.id == e.entityId && e.payload.row.version == e.version && e.payload.row.userId == e.userId
    && Checked(e.payload.row.content) && e.payload.row.content.currency != ""
  }

  /** The event takes over from the table's live row of its entity, at the next version. */
  predicate Continues(t: Table, e: Event)
  {
    e.entityId in t && t[e.entityId].Live() && e.version == t[e.entityId].version + 1 &&
      e.userId == t[e.entityId].userId
  }

  /**
   What an event must be for a replica at table `t` to accept it. This does not look at how the
   service writes events: a create needs an unused id and version 1; an update and a delete need a
   live row and its next version; a delete must leave the content alone; only a delete leaves a tombstone.
   */
  predicate Accepts(t: Table, e: Event)
  {
    && SelfConsistent(e)
    && match e.opType
       case "create" => e.entityId !in t && e.version == 1 && e.payload.row.Live()
       case "update" => Continues(t, e) && e.payload.row.Live()
       case "delete" => Continues(t, e) && !e.payload.row.Live() && e.payload.row.content == t[e.entityId].content
       case _ => false
  }

  /** Rebuild the table from the log; None as soon as an event is not acceptable. */
  function Replay(log: seq<Event>): Option<Table>
  {
    if |log| == 0 then Some(map[])
    else
      var e := log[|log| - 1];
      match Replay(log[..|log| - 1])
      case None => None
      case Some(t) => if Accepts(t, e) then Some(t[e.entityId := e.payload.row]) else None
  }

  lemma ReplayAppend(log: seq<Event>, e: Event)
    requires Replay(log).Some? && Accepts(Replay(log).value, e)
    ensures Replay(log + [e]) == Some(Replay(log).value[e.entityId := e.payload.row])
  {
    assert (log + [e])[..|log|] == log;
  }

  // ------------------------------------------------------------------ the invariant

  /** A held row is either out of date or exactly the table's row; it was live when read. */
  predicate HeldOk(t: Table, r: Row)
  {
    && r.Live() && r.id in t && r.userId == t[r.id].userId && r.version <= t[r.id].version
    && (r.version == t[r.id].version ==> r == t[r.id])
    && Checked(r.content) && r.content.currency != ""
  }

  ghost predicate JobOk(log: seq<Event>, j: SyncJob)
  {
    exists e :: e in log && e.userId == j.userId && j.sinceVersion == e.version - 1 && e.opType == j.operation
  }

  predicate IdsAscend(log: seq<Event>)
  {
    forall i, j :: 0 <= i < j < |log| ==> log[i].id < log[j].id
  }

  ghost predicate Inv(w: World)
  {
    && Replay(w.store.log) == Some(w.store.table)
    && (forall id :: id in w.store.table ==>
        w.store.table[id].id == id && Checked(w.store.table[id].content) && w.store.table[id].content.currency != "")
    && (forall c :: c in w.held ==> HeldOk(w.store.table, w.held[c]))
    && IdsAscend(w.store.log) && w.store.nextEventId >= 1
    && (forall i :: 0 <= i < |w.store.log| ==> 0 < w.store.log[i].id < w.store.nextEventId)
    && (forall j :: j in w.jobs ==> JobOk(w.store.log, j))
  }

  /** The row a mutation writes, described from outside: it is accepted and it only moves versions up. */
  lemma FinishKeepsInv(w: World, row: Row, op: string, now: int, fault: Fault, queued: bool)
    requires Inv(w)
    requires Accepts(w.store.table, EventFor(w.store.nextEventId, row, op, now))
    ensures Inv(After(w, Finish(w.store, row, op, now, fault), op, queued))
  {
    var w' := After(w, Finish(w.store, row, op, now, fault), op, queued);
    if fault.NoFault? {
      var e := EventFor(w.store.nextEventId, row, op, now);
      ReplayAppend(w.store.log, e);
      assert w'.store.log[|w.store.log|] == e;
      forall j | j in w'.jobs ensures JobOk(w'.store.log, j) {
        if j in w.jobs {
          var e0 :| e0 in w.store.log && e0.userId == j.userId && j.sinceVersion == e0.version - 1 &&
            e0.opType == j.operation;
          assert e0 in w'.store.log;
        } else {
          assert j == JobFor(row, op) && e in w'.store.log;
        }
      }
    }
  }

  lemma CreateKeepsInv(w: World, input: CreateInput, id: string, now: int, fault: Fault, queued: bool)
    requires Inv(w)
    ensures Inv(After(w, Create(w.store, input, id, now, fault), "create", queued))
  {
    var row := NewRow(input, id, now);
    if !FailsEarly(fault) && id !in w.store.table && Checked(row.content) {
      FinishKeepsInv(w, row, "create", now, fault, queued);
    }
  }

  lemma UpdateKeepsInv(w: World, held: Row, edit: Content, now: int, fault: Fault, queued: bool)
    requires Inv(w) && HeldOk(w.store.table, held)
    ensures Inv(After(w, Update(w.store, held, edit, now, fault), "update", queued))
  {
    if !FailsEarly(fault) && UpdateMatches(w.store, held) && Checked(Edited(held.content, edit)) {
      FinishKeepsInv(w, UpdatedRow(w.store.table[held.id], held, edit, now), "update", now, fault, queued);
    }
  }

  lemma DeleteKeepsInv(w: World, id: string, now: int, fault: Fault, queued: bool)
    requires Inv(w)
    ensures Inv(After(w, SoftDelete(w.store, id, now, fault), "delete", queued))
  {
    if !FailsEarly(fault) && id in w.store.table && w.store.table[id].Live() {
      FinishKeepsInv(w, DeletedRow(w.store.table[id], now), "delete", now, fault, queued);
    }
  }

  /** Which rows clients hold matters only as far as each held row is sound. */
  lemma HoldingKeepsInv(w: World, held: map<int, Row>)
    requires Inv(w) && forall c :: c in held ==> HeldOk(w.store.table, held[c])
    ensures Inv(w.(held := held))
  {
  }

  lemma NextKeepsInv(w: World, a: Action)
    requires Inv(w)
    ensures Inv(Next(w, a))
  {
    match a
    case DoCreate(input, id, now, fault, queued) => CreateKeepsInv(w, input, id, now, fault, queued);
    case DoLoad(client, id) =>
      if GetByIdOnly(w.store, id).Ok? {
        HoldingKeepsInv(w, w.held[client := w.store.table[id]]);
      }
    case DoUpdate(client, edit, now, fault, queued) =>
      if client in w.held {
        UpdateKeepsInv(w, w.held[client], edit, now, fault, queued);
        HoldingKeepsInv(After(w, Update(w.store, w.held[client], edit, now, fault), "update", queued),
          w.held - {client});
      }
    case DoDelete(id, now, fault, queued) => DeleteKeepsInv(w, id, now, fault, queued);
  }

  /** Outbox replay: after any run, replaying the log is possible and gives exactly the table. */
  lemma {:induction false} RunKeepsInv(w: World, actions: seq<Action>)
    requires Inv(w)
    ensures Inv(Run(w, actions))
    decreases |actions|
  {
    if |actions| > 0 {
      RunKeepsInv(w, actions[..|actions| - 1]);
      NextKeepsInv(Run(w, actions[..|actions| - 1]), actions[|actions| - 1]);
    }
  }

  lemma ReplayRebuildsTable(actions: seq<Action>)
    ensures Replay(Run(INITIAL, actions).store.log) == Some(Run(INITIAL, actions).store.table)
  {
    RunKeepsInv(INITIAL, actions);
  }

  // ------------------------------------------------------------------ shape of every entity's history

  function EventsOf(log: seq<Event>, id: string): seq<Event>
  {
    if |log| == 0 then []
    else
      var rest := EventsOf(log[..|log| - 1], id);
      var e := log[|log| - 1];
      if e.entityId == id then rest + [e] else rest
  }

  lemma EventsOfAppend(log: seq<Event>, e: Event, id: string)
    ensures EventsOf(log + [e], id) == EventsOf(log, id) + (if e.entityId == id then [e] else [])
  {
    assert (log + [e])[..|log|] == log;
  }

  /** The history of one row: versions 1, 2, ..., one create at the front, a delete only as the last word. */
  predicate HistoryOf(es: seq<Event>, row: Row)
  {
    && |es| == row.version
    && (forall i :: 0 <= i < |es| ==> es[i].version == i + 1 && es[i].entityId == row.id && es[i].userId == row.userId)
    && (forall i :: 0 <= i < |es| ==> (es[i].opType == "create" <==> i == 0))
    && (forall i :: 0 <= i < |es| ==> (es[i].opType == "delete" <==> i == |es| - 1 && !row.Live()))
    && |es| > 0 && es[|es| - 1].payload == Json(row)
  }

  /** Every log that replays has gap-free histories, and only entities of the table have events. */
  lemma {:induction false} LogShape(log: seq<Event>, id: string)
    requires Replay(log).Some?
    ensures id !in Replay(log).value ==> EventsOf(log, id) == []
    ensures id in Replay(log).value ==>
      Replay(log).value[id].id == id && HistoryOf(EventsOf(log, id), Replay(log).value[id])
    decreases |log|
  {
    if |log| > 0 {
      LogShape(log[..|log| - 1], id);
    }
  }

  /** Events of one entity appear in version order, so (entity, version) names at most one event. */
  lemma {:induction false} VersionsAscend(log: seq<Event>, i: int, j: int)
    requires Replay(log).Some? && 0 <= i < j < |log| && log[i].entityId == log[j].entityId
    ensures log[i].version < log[j].version
    decreases |log|
  {
    var front := log[..|log| - 1];
    if j < |front| {
      VersionsAscend(front, i, j);
    } else {
      VersionBound(front, i);
    }
  }

  lemma {:induction false} VersionBound(log: seq<Event>, i: int)
    requires Replay(log).Some? && 0 <= i < |log|
    ensures log[i].entityId in Replay(log).value
    ensures 1 <= log[i].version <= Replay(log).value[log[i].entityId].version
    ensures log[i].userId == Replay(log).value[log[i].entityId].userId && SelfConsistent(log[i])
    decreases |log|
  {
    var front := log[..|log| - 1];
    var e := log[|log| - 1];
    if i < |front| {
      VersionBound(front, i);
    } else if e.opType != "create" {
      var k := LastOf(front, e.entityId);
      VersionBound(front, k);
    }
  }

  /** Each row of a replayed table has its newest event in the log, at the row's version and with the row as payload. */
  lemma {:induction false} LastOf(log: seq<Event>, id: string) returns (k: int)
    requires Replay(log).Some? && id in Replay(log).value
    ensures 0 <= k < |log| && log[k].entityId == id
    ensures log[k].version == Replay(log).value[id].version && log[k].payload == Json(Replay(log).value[id])
    decreases |log|
  {
    k := |log| - 1;
    if log[k].entityId != id {
      k := LastOf(log[..|log| - 1], id);
    }
  }

  // ------------------------------------------------------------------ no lost updates, frozen tombstones

  /** The log only grows, at its end. */
  lemma {:induction false} RunExtendsLog(w: World, actions: seq<Action>)
    ensures w.store.log <= Run(w, actions).store.log
    decreases |actions|
  {
    if |actions| > 0 {
      RunExtendsLog(w, actions[..|actions| - 1]);
    }
  }

  /**
   An update that reaches the log was made on exactly the row the table held, and moves that row alone by one
   version.
   */
  lemma UpdateCommitsOnWhatWasRead(w: World, client: int, edit: Content, now: int, fault: Fault, queued: bool)
    requires Inv(w)
    ensures var w' := Next(w, DoUpdate(client, edit, now, fault, queued));
      w'.store.log != w.store.log ==>
        && client in w.held
        && var held := w.held[client];
           && held == w.store.table[held.id]
           && w'.store.table.Keys == w.store.table.Keys
           && w'.store.table[held.id].content == Edited(held.content, edit)
           && w'.store.table[held.id].version == held.version + 1
           && (forall id :: id in w.store.table && id != held.id ==> w'.store.table[id] == w.store.table[id])
  {
  }

  /**
   What a client reads back right after its create: its own values, with the defaults where it left currency or
   source empty.
   */
  lemma CreateThenRead(s: Store, input: CreateInput, id: string, now: int, fault: Fault)
    requires Create(s, input, id, now, fault).result.Ok?
    ensures var c := input.content;
      var r := GetByIdOnly(Create(s, input, id, now, fault).store, id);
      && id !in s.table && r.Ok? && r.value.id == id && r.value.userId == input.userId && r.value.version == 1
      && r.value.content.currency == (if c.currency == "" then "IDR" else c.currency)
      && r.value.content.source == (if c.source == "" then "app" else c.source)
      && r.value.content.(currency := c.currency, source := c.source) == c
  {
  }

  /**
   What is read after a committed update: the edit, with what the client had read where currency, type or source
   is empty.
   */
  lemma UpdateThenRead(w: World, client: int, edit: Content, now: int, queued: bool)
    requires Inv(w) && client in w.held
    requires Next(w, DoUpdate(client, edit, now, NoFault, queued)).store.log != w.store.log
    ensures var read := w.held[client];
      var r := GetByIdOnly(Next(w, DoUpdate(client, edit, now, NoFault, queued)).store, read.id);
      && r.Ok? && r.value.id == read.id && r.value.userId == read.userId && r.value.version == read.version + 1
      && r.value.content.currency == (if edit.currency == "" then read.content.currency else edit.currency)
      && r.value.content.kind == (if edit.kind == "" then read.content.kind else edit.kind)
      && r.value.content.source == (if edit.source == "" then read.content.source else edit.source)
      && r.value.content.(currency := edit.currency, kind := edit.kind, source := edit.source) == edit
  {
  }

  /** After a delete the row is not found any more, and a second delete fails without effect. */
  lemma DeleteThenGone(s: Store, id: string, now: int, fault: Fault, later: int, fault': Fault)
    requires SoftDelete(s, id, now, fault).result.Ok? && (id in s.table ==> s.table[id].id == id)
    ensures var s' := SoftDelete(s, id, now, fault).store;
      && GetByIdOnly(s, id).Ok? && GetByIdOnly(s', id).Err?
      && SoftDelete(s', id, later, fault').result.Err? && SoftDelete(s', id, later, fault').store == s'
  {
  }

  /** Rows are never removed, change owner or go back in version; a tombstone does not change at all. */
  predicate Later(t: Table, t': Table, id: string)
  {
    id in t ==>
      && id in t' && t[id].userId == t'[id].userId && t[id].version <= t'[id].version
      && (t[id].version == t'[id].version || !t[id].Live() ==> t'[id] == t[id])
  }

  /** A row put in place of a live one at the next version moves its id forward and touches no other. */
  lemma PutMovesForward(t: Table, row: Row, id: string)
    requires row.id in t ==> t[row.id].Live() && row.userId == t[row.id].userId && row.version == t[row.id].version + 1
    ensures Later(t, t[row.id := row], id)
  {
  }

  lemma FinishMovesForward(s: Store, row: Row, op: string, now: int, fault: Fault, id: string)
    requires row.id in s.table ==>
      s.table[row.id].Live() && row.userId == s.table[row.id].userId && row.version == s.table[row.id].version + 1
    ensures Later(s.table, Finish(s, row, op, now, fault).store.table, id)
  {
    PutMovesForward(s.table, row, id);
  }

  lemma CreateMovesForward(s: Store, input: CreateInput, newId: string, now: int, fault: Fault, id: string)
    ensures Later(s.table, Create(s, input, newId, now, fault).store.table, id)
  {
    if newId !in s.table {
      FinishMovesForward(s, NewRow(input, newId, now), "create", now, fault, id);
    }
  }

  lemma UpdateMovesForward(s: Store, held: Row, edit: Content, now: int, fault: Fault, id: string)
    requires HeldOk(s.table, held) && s.table[held.id].id == held.id
    ensures Later(s.table, Update(s, held, edit, now, fault).store.table, id)
  {
    if UpdateMatches(s, held) {
      FinishMovesForward(s, UpdatedRow(s.table[held.id], held, edit, now), "update", now, fault, id);
    }
  }

  lemma DeleteMovesForward(s: Store, oldId: string, now: int, fault: Fault, id: string)
    requires oldId in s.table ==> s.table[oldId].id == oldId
    ensures Later(s.table, SoftDelete(s, oldId, now, fault).store.table, id)
  {
    if oldId in s.table && s.table[oldId].Live() {
      FinishMovesForward(s, DeletedRow(s.table[oldId], now), "delete", now, fault, id);
    }
  }

  lemma NextMovesForward(w: World, a: Action, id: string)
    requires Inv(w)
    ensures Later(w.store.table, Next(w, a).store.table, id)
  {
    match a
    case DoCreate(input, newId, now, fault, queued) => CreateMovesForward(w.store, input, newId, now, fault, id);
    case DoLoad(client, readId) =>
    case DoUpdate(client, edit, now, fault, queued) =>
      if client in w.held {
        UpdateMovesForward(w.store, w.held[client], edit, now, fault, id);
      }
    case DoDelete(oldId, now, fault, queued) => DeleteMovesForward(w.store, oldId, now, fault, id);
  }

  /** One step adds at most one event, and none to a tombstone. */
  lemma NextAppends(w: World, a: Action, id: string)
    requires Inv(w)
    ensures var log, log' := w.store.log, Next(w, a).store.log;
      log' == log || (|log'| == |log| + 1 && log' == log + [log'[|log|]] &&
        (id in w.store.table && !w.store.table[id].Live() ==> log'[|log|].entityId != id))
  {
  }

  lemma {:induction false} RunMovesForward(w: World, actions: seq<Action>, id: string)
    requires Inv(w)
    ensures Later(w.store.table, Run(w, actions).store.table, id)
    ensures id in w.store.table && !w.store.table[id].Live() ==>
      EventsOf(Run(w, actions).store.log, id) == EventsOf(w.store.log, id)
    decreases |actions|
  {
    if |actions| > 0 {
      var front, a := actions[..|actions| - 1], actions[|actions| - 1];
      var v := Run(w, front);
      RunMovesForward(w, front, id);
      RunKeepsInv(w, front);
      NextMovesForward(v, a, id);
      NextAppends(v, a, id);
      var log' := Next(v, a).store.log;
      if log' != v.store.log {
        EventsOfAppend(v.store.log, log'[|v.store.log|], id);
      }
    }
  }

  /**
   A soft-deleted row never changes again, whatever the clients do next and however stale the rows
   they hold, although the UPDATE statement does not test deleted_at.
   */
  lemma TombstonesAreFrozen(before: seq<Action>, w: World, after: seq<Action>, id: string)
    requires w == Run(INITIAL, before) && id in w.store.table && !w.store.table[id].Live()
    ensures id in Run(w, after).store.table && Run(w, after).store.table[id] == w.store.table[id]
    ensures EventsOf(Run(w, after).store.log, id) == EventsOf(w.store.log, id)
  {
    RunKeepsInv(INITIAL, before);
    RunMovesForward(w, after, id);
  }

  /** A committed update leaves every other client that holds the row behind it. */
  lemma CommitOutdates(w: World, c: int, d: int, edit: Content, now: int, queued: bool)
    requires Inv(w) && c != d && c in w.held && d in w.held && w.held[c].id == w.held[d].id
    requires Next(w, DoUpdate(c, edit, now, NoFault, queued)).store.log != w.store.log
    ensures var w1, r := Next(w, DoUpdate(c, edit, now, NoFault, queued)), w.held[d];
      d in w1.held && w1.held[d] == r && r.id in w1.store.table && r.version < w1.store.table[r.id].version
  {
    UpdateCommitsOnWhatWasRead(w, c, edit, now, NoFault, queued);
  }

  /**
   Two clients that read the same row: once one of them commits, the other cannot commit on what it
   read, after any further interleaving in which it does not read again.
   */
  lemma OnlyOneWinner(w: World, c: int, d: int, edit: Content, now: int, queued: bool, between: seq<Action>,
                      edit': Content, now': int, fault': Fault, queued': bool)
    requires Inv(w) && c != d && c in w.held && d in w.held && w.held[c].id == w.held[d].id
    requires var w1 := Next(w, DoUpdate(c, edit, now, NoFault, queued)); w1.store.log != w.store.log
    requires forall i :: 0 <= i < |between| ==> !(between[i].DoLoad? && between[i].client == d)
    ensures var w1 := Next(w, DoUpdate(c, edit, now, NoFault, queued));
            var w2 := Run(w1, between);
            var w3 := Next(w2, DoUpdate(d, edit', now', fault', queued'));
            w3.store == w2.store && w3.jobs == w2.jobs
  {
    var w1 := Next(w, DoUpdate(c, edit, now, NoFault, queued));
    NextKeepsInv(w, DoUpdate(c, edit, now, NoFault, queued));
    CommitOutdates(w, c, d, edit, now, queued);
    RunMovesForward(w1, between, w.held[d].id);
    HeldUnlessReloaded(w1, between, d);
    StaleUpdateIsRefused(Run(w1, between), d, edit', now', fault', queued');
  }

  /** A client whose row is out of date leaves no trace in table, log or queue. */
  lemma StaleUpdateIsRefused(w: World, d: int, edit: Content, now: int, fault: Fault, queued: bool)
    requires d in w.held ==> w.held[d].id in w.store.table && w.held[d].version < w.store.table[w.held[d].id].version
    ensures var w' := Next(w, DoUpdate(d, edit, now, fault, queued)); w'.store == w.store && w'.jobs == w.jobs
  {
  }

  lemma {:induction false} HeldUnlessReloaded(w: World, actions: seq<Action>, d: int)
    requires forall i :: 0 <= i < |actions| ==> !(actions[i].DoLoad? && actions[i].client == d)
    ensures d in Run(w, actions).held ==> d in w.held && Run(w, actions).held[d] == w.held[d]
    decreases |actions|
  {
    if |actions| > 0 {
      HeldUnlessReloaded(w, actions[..|actions| - 1], d);
    }
  }
}
