/**
 Ledger, stream and sync jobs as one system: clients commit and queue jobs; any number of consumers read
 the stream and, for one connection after another, list events, fetch the sheet and write the merge back,
 each a step of its own; any call may fail.
 */
module SyncPipeline {
  import opened Wrappers
  import opened Merge
  import opened MergeAlgebra
  import opened SheetSync
  import L = Ledger
  import Q = StreamQueue

  /** What does not change during a run: the connections, and the JSON text of a job's payload. */
  datatype Setting = Setting(
    connections: map<string, Connection>,
    text: SyncJobPayload -> string,
    parse: string -> Option<SyncJobPayload>)

  /** This payload is read back as it was written. */
  predicate TextIsRead(env: Setting, p: SyncJobPayload)
  {
    env.parse(env.text(p)) == Some(p)
  }

  function SheetIdOf(env: Setting, connId: string): string
  {
    if connId in env.connections then env.connections[connId].sheetId else ""
  }

  /**
   How far the sync of one connection has come. `read` is the log that the events were listed from;
   `writes` is how often the sheet had been written when it was fetched.
   */
  datatype Stage =
    | Resting
    | Listed(read: seq<L.Event>, events: seq<L.Event>)
    | Fetched(read: seq<L.Event>, events: seq<L.Event>, sheet: RowMap, writes: nat)

  /**
   A job that a consumer is working on: the ledger when it began, the connections still to sync, and, for
   each connection synced, the log that was read for it.
   */
  datatype Work = Work(entry: nat, began: L.Store, todo: seq<string>, done: map<string, seq<L.Event>>, stage: Stage)

  /** `writes` counts the writes to each sheet and `finished` keeps the jobs that succeeded; both are history. */
  datatype State = State(
    world: L.World, group: Q.Group, sheets: Sheets, writes: map<string, nat>,
    working: map<string, Work>, finished: map<nat, Work>)

  const BOOT := State(L.INITIAL, Q.EMPTY_GROUP, map[], map[], map[], map[])

  /** `Publish` puts any message into the stream: a job from elsewhere, or a client's enqueue after its commit. */
  datatype Action =
    | Client(action: L.Action)
    | Publish(msg: Q.Message)
    | Read(consumer: string)
    | Begin(consumer: string, ids: Option<seq<string>>)
    | List(consumer: string, events: seq<L.Event>, fails: bool)
    | Fetch(consumer: string, fails: bool)
    | Write(consumer: string, fault: SyncFault)
    | Finish(consumer: string, ackLost: bool)
    | Crash(consumer: string)

  // ------------------------------------------------------------------ queueing

  function PayloadOf(j: L.SyncJob): SyncJobPayload
  {
    SyncJobPayload(j.userId, "", j.sinceVersion)
  }

  function MessageOf(env: Setting, j: L.SyncJob): Q.Message
  {
    Q.Message(0, "transaction", j.operation, env.text(PayloadOf(j)), 0)
  }

  /** The payload that the handler unmarshals from a stream entry. */
  function PayloadAt(env: Setting, g: Q.Group, m: nat): Option<SyncJobPayload>
  {
    if m < |g.entries| then env.parse(Q.DecodeMessage(m, g.entries[m]).payload) else None
  }

  ghost function Commit(env: Setting, s: State, a: L.Action): (s': State)
    requires s.group.delivered <= |s.group.entries|
    ensures s'.group.delivered <= |s'.group.entries|
  {
    var w := L.Next(s.world, a);
    if |w.jobs| > |s.world.jobs| then
      s.(world := w, group := Q.Next(s.group, Q.Enqueue(MessageOf(env, w.jobs[|w.jobs| - 1]))))
    else s.(world := w)
  }

  // ------------------------------------------------------------------ the handler

  /** The handler returned an error: the entry stays pending. */
  function GiveUp(s: State, c: string): (s': State)
    requires s.group.delivered <= |s.group.entries|
    ensures s'.group.delivered <= |s'.group.entries|
  {
    s.(group := Q.Next(s.group, Q.Handle(c, false, false)), working := s.working - {c})
  }

  /** `ids` is what the connection query returned, None if it failed. */
  ghost function Begun(env: Setting, s: State, c: string, ids: Option<seq<string>>): (s': State)
    requires s.group.delivered <= |s.group.entries|
    ensures s'.group.delivered <= |s'.group.entries|
  {
    if Q.InHand(s.group, c) == [] || c in s.working then s
    else
      var m := Q.InHand(s.group, c)[0];
      match PayloadAt(env, s.group, m)
      case None => GiveUp(s, c)
      case Some(p) =>
        if ids.None? && p.connectionId == "" then GiveUp(s, c)
        else
          var todo := if p.connectionId != "" then [p.connectionId] else ids.value;
          if AreTargets(env.connections, p, todo) then
            s.(working := s.working[c := Work(m, s.world.store, todo, map[], Resting)])
          else s
  }

  /** The consumer's work goes on to the next stage of its connection. */
  function Staged(s: State, c: string, stage: Stage): State
    requires c in s.working
  {
    s.(working := s.working[c := s.working[c].(stage := stage)])
  }

  /** Look up the connection and list the user's events; `events` must be an answer that the query may give. */
  ghost function ListedNext(env: Setting, s: State, c: string, events: seq<L.Event>, fails: bool): (s': State)
    requires s.group.delivered <= |s.group.entries|
    ensures s'.group.delivered <= |s'.group.entries|
  {
    if c !in s.working || s.working[c].todo == [] || !s.working[c].stage.Resting? then s
    else
      match PayloadAt(env, s.group, s.working[c].entry)
      case None => s
      case Some(p) =>
        if fails || !Owns(env.connections, p.userId, s.working[c].todo[0]) then GiveUp(s, c)
        else if !Listing(s.world.store.log, p.userId, p.sinceVersion, EVENT_LIMIT, events) then s
        else Staged(s, c, Listed(s.world.store.log, events))
  }

  function WritesTo(s: State, sheetId: string): nat
  {
    if sheetId in s.writes then s.writes[sheetId] else 0
  }

  function FetchedNext(env: Setting, s: State, c: string, fails: bool): (s': State)
    requires s.group.delivered <= |s.group.entries|
    ensures s'.group.delivered <= |s'.group.entries|
  {
    if c !in s.working || s.working[c].todo == [] || !s.working[c].stage.Listed? then s
    else if fails then GiveUp(s, c)
    else
      var stage, sheetId := s.working[c].stage, SheetIdOf(env, s.working[c].todo[0]);
      Staged(s, c, Fetched(stage.read, stage.events, SheetOf(s.sheets, sheetId), WritesTo(s, sheetId)))
  }

  /** The consumer has fetched the sheet of its next connection and is about to write. */
  predicate ReadyToWrite(s: State, c: string)
  {
    c in s.working && s.working[c].todo != [] && s.working[c].stage.Fetched?
  }

  /** The merge of what was listed with what was fetched. */
  function MergeOf(s: State, c: string): RowMap
    requires ReadyToWrite(s, c)
  {
    Join(LocalMap(s.working[c].stage.events), s.working[c].stage.sheet)
  }

  /** The sheet is written, whatever has happened to it since the fetch. */
  ghost function AfterWrite(env: Setting, s: State, c: string, fault: SyncFault): State
    requires ReadyToWrite(s, c)
  {
    var sheetId := SheetIdOf(env, s.working[c].todo[0]);
    s.(sheets := WriteBack(s.sheets, sheetId, MergeOf(s, c), fault).sheets,
       writes := if fault.BeforeWrite? then s.writes else s.writes[sheetId := WritesTo(s, sheetId) + 1])
  }

  /** The first connection is done. */
  function OneDone(k: Work): Work
    requires k.todo != [] && k.stage.Fetched?
  {
    k.(todo := k.todo[1..], done := k.done[k.todo[0] := k.stage.read], stage := Resting)
  }

  ghost function WrittenNext(env: Setting, s: State, c: string, fault: SyncFault): (s': State)
    requires s.group.delivered <= |s.group.entries|
    ensures s'.group.delivered <= |s'.group.entries|
  {
    if !ReadyToWrite(s, c) then s
    else
      var s1 := AfterWrite(env, s, c, fault);
      if WriteBack(s.sheets, SheetIdOf(env, s.working[c].todo[0]), MergeOf(s, c), fault).ok then
        s1.(working := s.working[c := OneDone(s.working[c])])
      else GiveUp(s1, c)
  }

  /** The handler returned without an error, and the entry is acknowledged unless that call is lost. */
  function Finished(s: State, c: string, ackLost: bool): (s': State)
    requires s.group.delivered <= |s.group.entries|
    ensures s'.group.delivered <= |s'.group.entries|
  {
    if c !in s.working || s.working[c].todo != [] then s
    else s.(group := Q.Next(s.group, Q.Handle(c, true, ackLost)), working := s.working - {c},
            finished := s.finished[s.working[c].entry := s.working[c]])
  }

  ghost function Next(env: Setting, s: State, a: Action): (s': State)
    requires s.group.delivered <= |s.group.entries|
    ensures s'.group.delivered <= |s'.group.entries|
  {
    match a
    case Client(action) => Commit(env, s, action)
    case Publish(msg) => s.(group := Q.Next(s.group, Q.Enqueue(msg)))
    case Read(c) => s.(group := Q.Next(s.group, Q.Read(c)))
    case Begin(c, ids) => Begun(env, s, c, ids)
    case List(c, events, fails) => ListedNext(env, s, c, events, fails)
    case Fetch(c, fails) => FetchedNext(env, s, c, fails)
    case Write(c, fault) => WrittenNext(env, s, c, fault)
    case Finish(c, ackLost) => Finished(s, c, ackLost)
    case Crash(c) => s.(group := Q.Next(s.group, Q.Stop(c)), working := s.working - {c})
  }

  // ------------------------------------------------------------------ runs

  /** A run: the steps taken, and the states before, between and after them. */
  datatype Trace = Trace(actions: seq<Action>, states: seq<State>)

  ghost predicate IsRun(env: Setting, t: Trace)
  {
    && |t.states| == |t.actions| + 1 && t.states[0] == BOOT
    && forall i :: 0 <= i < |t.actions| ==> StepAt(env, t, i)
  }

  ghost predicate StepAt(env: Setting, t: Trace, i: int)
    requires 0 <= i < |t.actions| && |t.states| == |t.actions| + 1
  {
    var s := t.states[i];
    s.group.delivered <= |s.group.entries| && t.states[i + 1] == Next(env, s, t.actions[i])
  }

  function End(t: Trace): State
    requires |t.states| == |t.actions| + 1
  {
    t.states[|t.actions|]
  }

  /** One more step makes a longer run. */
  lemma RunOn(env: Setting, t: Trace, a: Action) returns (t': Trace)
    requires IsRun(env, t) && End(t).group.delivered <= |End(t).group.entries|
    ensures IsRun(env, t') && t'.actions == t.actions + [a] && t.states <= t'.states
    ensures End(t') == Next(env, End(t), a) && End(t').group.delivered <= |End(t').group.entries|
  {
    t' := Trace(t.actions + [a], t.states + [Next(env, End(t), a)]);
    forall i | 0 <= i < |t'.actions| ensures StepAt(env, t', i) {
      assert i < |t.actions| ==> StepAt(env, t, i);
    }
  }

  /** Any steps in any order make a run. */
  lemma {:induction false} RunExists(env: Setting, actions: seq<Action>) returns (t: Trace)
    ensures IsRun(env, t) && t.actions == actions && End(t).group.delivered <= |End(t).group.entries|
    decreases |actions|
  {
    if |actions| == 0 {
      t := Trace([], [BOOT]);
    } else {
      t := RunExists(env, actions[..|actions| - 1]);
      t := RunOn(env, t, actions[|actions| - 1]);
    }
  }
}
