/**
 Acknowledged jobs and the sheets: exactly when no row ever goes down along a run, and that in the runs
 where none does an acknowledged job has left every due row on every sheet it is for, for good.
 */
module AcknowledgedJobs {
  import opened Wrappers
  import SheetRows
  import opened SheetSync
  import opened ListingChoice
  import opened SyncCoverage
  import opened SheetWrites
  import opened SyncPipeline
  import opened SyncPipelineHistory
  import L = Ledger
  import H = LedgerHistory
  import Q = StreamQueue

  // ------------------------------------------------------------------ how one step moves the work

  /** How work moves in one step: nobody's record changes but that of the consumer that steps. */
  ghost predicate SameDone(s: State, s': State, c: string)
    requires c in s'.working
  {
    c in s.working && s'.working[c].began == s.working[c].began && s'.working[c].entry == s.working[c].entry
    && s'.working[c].done == s.working[c].done
  }

  ghost predicate JustDone(env: Setting, s: State, a: Action, s': State, c: string)
    requires c in s'.working
  {
    && a.Write? && a.consumer == c && ReadyToWrite(s, c) && s'.working[c] == OneDone(s.working[c])
    && WriteBack(s.sheets, SheetIdOf(env, s.working[c].todo[0]), MergeOf(s, c), a.fault).ok
  }

  /** Step a, taken in state s, is the step that began this work: its entry was at the head of a consumer's hand. */
  ghost predicate BeginsOn(s: State, a: Action, w: Work)
  {
    && a.Begin? && Q.InHand(s.group, a.consumer) != [] && Q.InHand(s.group, a.consumer)[0] == w.entry
    && w.began == s.world.store && w.done == map[]
  }

  /** Work in progress begins with this step, has just done one more connection, or has done what it had. */
  ghost predicate WorkCarriesOn(env: Setting, s: State, a: Action, s': State)
  {
    forall c :: c in s'.working ==>
      BeginsOn(s, a, s'.working[c]) || JustDone(env, s, a, s', c) || SameDone(s, s', c)
  }

  ghost predicate WasInProgress(s: State, k: Work)
  {
    exists c :: c in s.working && s.working[c] == k
  }

  /** Finished work was finished before or in progress. */
  ghost predicate FinishedWasWork(s: State, s': State)
  {
    forall m :: m in s'.finished ==>
      (m in s.finished && s'.finished[m] == s.finished[m]) || WasInProgress(s, s'.finished[m])
  }

  /** Only client steps touch the ledger, only writes touch sheets, and nothing is taken back. */
  ghost predicate StepShape(env: Setting, s: State, a: Action, s': State)
  {
    && WorkCarriesOn(env, s, a, s') && FinishedWasWork(s, s') && s.finished.Keys <= s'.finished.Keys
    && s.group.entries <= s'.group.entries
    && (a.Client? || s'.world == s.world) && (a.Write? || s'.sheets == s.sheets)
  }

  lemma GiveUpShape(env: Setting, s: State, a: Action, s1: State, c: string)
    requires s.group.delivered <= |s.group.entries| && s1 == s.(sheets := s1.sheets, writes := s1.writes)
    requires a.Write? || s1.sheets == s.sheets
    ensures StepShape(env, s, a, GiveUp(s1, c))
  {
    HandleTouches(s.group, c, false, false);
  }

  lemma NothingShape(env: Setting, s: State, a: Action)
    ensures StepShape(env, s, a, s)
  {
  }

  lemma BegunShape(env: Setting, s: State, c: string, ids: Option<seq<string>>)
    requires s.group.delivered <= |s.group.entries|
    ensures StepShape(env, s, Begin(c, ids), Begun(env, s, c, ids))
  {
    NothingShape(env, s, Begin(c, ids));
    GiveUpShape(env, s, Begin(c, ids), s, c);
  }

  lemma StagedShape(env: Setting, s: State, a: Action, c: string, stage: Stage)
    requires c in s.working
    ensures StepShape(env, s, a, Staged(s, c, stage))
  {
  }

  lemma ListedShape(env: Setting, s: State, c: string, events: seq<L.Event>, fails: bool)
    requires s.group.delivered <= |s.group.entries|
    ensures StepShape(env, s, List(c, events, fails), ListedNext(env, s, c, events, fails))
  {
    var a := List(c, events, fails);
    NothingShape(env, s, a);
    GiveUpShape(env, s, a, s, c);
    if c in s.working {
      StagedShape(env, s, a, c, Listed(s.world.store.log, events));
    }
  }

  lemma FetchedShape(env: Setting, s: State, c: string, fails: bool)
    requires s.group.delivered <= |s.group.entries|
    ensures StepShape(env, s, Fetch(c, fails), FetchedNext(env, s, c, fails))
  {
    var a, s' := Fetch(c, fails), FetchedNext(env, s, c, fails);
    NothingShape(env, s, a);
    GiveUpShape(env, s, a, s, c);
    if s' != s && s' != GiveUp(s, c) {
      StagedShape(env, s, a, c, s'.working[c].stage);
    }
  }

  lemma WrittenShape(env: Setting, s: State, c: string, fault: SyncFault)
    requires s.group.delivered <= |s.group.entries|
    ensures StepShape(env, s, Write(c, fault), WrittenNext(env, s, c, fault))
  {
    NothingShape(env, s, Write(c, fault));
    if ReadyToWrite(s, c) {
      GiveUpShape(env, s, Write(c, fault), AfterWrite(env, s, c, fault), c);
    }
  }

  lemma FinishedShape(env: Setting, s: State, a: Action, c: string, ackLost: bool)
    requires s.group.delivered <= |s.group.entries|
    ensures StepShape(env, s, a, Finished(s, c, ackLost))
  {
    if c in s.working {
      assert WasInProgress(s, s.working[c]);
      HandleTouches(s.group, c, true, ackLost);
    }
  }

  lemma CommitShape(env: Setting, s: State, a: L.Action)
    requires s.group.delivered <= |s.group.entries|
    ensures StepShape(env, s, Client(a), Commit(env, s, a))
  {
  }

  lemma NextShape(env: Setting, s: State, a: Action)
    requires s.group.delivered <= |s.group.entries|
    ensures StepShape(env, s, a, Next(env, s, a))
  {
    match a
    case Client(action) => CommitShape(env, s, action);
    case Begin(c, ids) => BegunShape(env, s, c, ids);
    case List(c, events, fails) => ListedShape(env, s, c, events, fails);
    case Fetch(c, fails) => FetchedShape(env, s, c, fails);
    case Write(c, fault) => WrittenShape(env, s, c, fault);
    case Finish(c, ackLost) => FinishedShape(env, s, a, c, ackLost);
    case _ =>
  }

  // ------------------------------------------------------------------ when sheets only rise

  /**
   This step writes a row whose version has been overtaken since the sheet was fetched: the sheet now has
   the row above both versions that it was merged from.
   */
  ghost predicate WritesOvertaken(env: Setting, s: State, a: Action)
  {
    && a.Write? && ReadyToWrite(s, a.consumer)
    && Overtaken(SheetOf(s.sheets, SheetIdOf(env, s.working[a.consumer].todo[0])), MergeOf(s, a.consumer),
                 WrittenRows(MergeOf(s, a.consumer), a.fault))
  }

  lemma WriteTouchesSheet(env: Setting, s: State, c: string, fault: SyncFault)
    requires s.group.delivered <= |s.group.entries|
    ensures WrittenNext(env, s, c, fault).sheets ==
      if ReadyToWrite(s, c) then AfterWrite(env, s, c, fault).sheets else s.sheets
  {
  }

  lemma OnlyWritesTouchSheets(env: Setting, s: State, a: Action)
    requires s.group.delivered <= |s.group.entries|
    ensures !a.Write? || !ReadyToWrite(s, a.consumer) ==> Next(env, s, a).sheets == s.sheets
    ensures a.Write? && ReadyToWrite(s, a.consumer) ==>
      Next(env, s, a).sheets == AfterWrite(env, s, a.consumer, a.fault).sheets
  {
    if a.Write? {
      WriteTouchesSheet(env, s, a.consumer, a.fault);
    } else {
      NextShape(env, s, a);
    }
  }

  /** A step lowers a row of some sheet if and only if it writes an overtaken one. */
  lemma StepRisesIff(env: Setting, s: State, a: Action)
    requires Inv(env, s)
    ensures Rise(s.sheets, Next(env, s, a).sheets) <==> !WritesOvertaken(env, s, a)
  {
    OnlyWritesTouchSheets(env, s, a);
    NothingFalls(s.sheets);
    if a.Write? && ReadyToWrite(s, a.consumer) {
      MergeIsKeyed(env, s, a.consumer);
      WriteLowersIff(s.sheets, SheetIdOf(env, s.working[a.consumer].todo[0]), MergeOf(s, a.consumer), a.fault);
    }
  }

  ghost predicate NothingOvertaken(env: Setting, t: Trace)
    requires |t.states| == |t.actions| + 1
  {
    forall i :: 0 <= i < |t.actions| ==> !WritesOvertaken(env, t.states[i], t.actions[i])
  }

  ghost predicate AlwaysRising(t: Trace)
    requires |t.states| == |t.actions| + 1
  {
    forall i :: 0 <= i < |t.actions| ==> Rise(t.states[i].sheets, t.states[i + 1].sheets)
  }

  lemma StepOfRunRisesIff(env: Setting, t: Trace, i: nat)
    requires IsRun(env, t) && i < |t.actions|
    ensures Rise(t.states[i].sheets, t.states[i + 1].sheets) <==> !WritesOvertaken(env, t.states[i], t.actions[i])
  {
    RunKeepsInv(env, t, i);
    assert StepAt(env, t, i);
    StepRisesIff(env, t.states[i], t.actions[i]);
  }

  /** No row of any sheet goes down along a run if and only if no step of it writes an overtaken row. */
  lemma AlwaysRisingIff(env: Setting, t: Trace)
    requires IsRun(env, t)
    ensures AlwaysRising(t) <==> NothingOvertaken(env, t)
  {
    if AlwaysRising(t) {
      forall i | 0 <= i < |t.actions| ensures !WritesOvertaken(env, t.states[i], t.actions[i]) {
        StepOfRunRisesIff(env, t, i);
      }
    }
    if NothingOvertaken(env, t) {
      forall i | 0 <= i < |t.actions| ensures Rise(t.states[i].sheets, t.states[i + 1].sheets) {
        StepOfRunRisesIff(env, t, i);
      }
    }
  }

  /** This step writes a sheet that another write has touched since it was fetched. */
  predicate Disturbed(env: Setting, s: State, a: Action)
  {
    && a.Write? && ReadyToWrite(s, a.consumer)
    && WritesTo(s, SheetIdOf(env, s.working[a.consumer].todo[0])) != s.working[a.consumer].stage.writes
  }

  /** No other write to a sheet falls between a consumer's fetch of it and its own write. */
  predicate Undisturbed(env: Setting, t: Trace)
    requires |t.states| == |t.actions| + 1
  {
    forall i :: 0 <= i < |t.actions| ==> !Disturbed(env, t.states[i], t.actions[i])
  }

  lemma UndisturbedWrite(env: Setting, s: State, a: Action)
    requires Inv(env, s) && !Disturbed(env, s, a)
    ensures !WritesOvertaken(env, s, a)
  {
    if a.Write? && ReadyToWrite(s, a.consumer) {
      var k := s.working[a.consumer];
      assert WorkOk(env, s, k);
      FreshIsNotOvertaken(LocalMap(k.stage.events), k.stage.sheet, WrittenRows(MergeOf(s, a.consumer), a.fault));
    }
  }

  /** Runs in which syncs of one sheet do not overlap overtake nothing. */
  lemma UndisturbedOvertakesNothing(env: Setting, t: Trace)
    requires IsRun(env, t) && Undisturbed(env, t)
    ensures NothingOvertaken(env, t)
  {
    forall i | 0 <= i < |t.actions| ensures !WritesOvertaken(env, t.states[i], t.actions[i]) {
      RunKeepsInv(env, t, i);
      UndisturbedWrite(env, t.states[i], t.actions[i]);
    }
  }

  // ------------------------------------------------------------------ what is reached stays reached

  /** Every sheet that this job has done holds what was due when the job began. */
  ghost predicate HasReached(env: Setting, s: State, k: Work)
  {
    forall id :: id in k.done && PayloadAt(env, s.group, k.entry).Some? ==>
      Reached(k.done[id], s.sheets, PayloadAt(env, s.group, k.entry).value, k.began.table, SheetIdOf(env, id))
  }

  ghost predicate AllReached(env: Setting, s: State)
  {
    && (forall c :: c in s.working ==> HasReached(env, s, s.working[c]))
    && (forall m :: m in s.finished ==> HasReached(env, s, s.finished[m]))
  }

  lemma HasReachedStays(env: Setting, s: State, s': State, k: Work)
    requires WorkOk(env, s, k) && HasReached(env, s, k)
    requires s.group.entries <= s'.group.entries && Rise(s.sheets, s'.sheets)
    ensures HasReached(env, s', k)
  {
    PayloadStays(env, s.group, s'.group, k.entry);
    var p := PayloadAt(env, s.group, k.entry).value;
    forall id | id in k.done ensures Reached(k.done[id], s'.sheets, p, k.began.table, SheetIdOf(env, id)) {
      ReachedStays(k.done[id], s.sheets, s'.sheets, p, k.began.table, SheetIdOf(env, id));
    }
  }

  /** A write that succeeds has reached what was due when its job began. */
  lemma WriteReaches(env: Setting, s: State, c: string, fault: SyncFault)
    requires Inv(env, s) && ReadyToWrite(s, c)
    requires WriteBack(s.sheets, SheetIdOf(env, s.working[c].todo[0]), MergeOf(s, c), fault).ok
    ensures PayloadAt(env, s.group, s.working[c].entry).Some?
    ensures var k := s.working[c];
      Reached(k.stage.read, AfterWrite(env, s, c, fault).sheets, PayloadAt(env, s.group, k.entry).value,
              k.began.table, SheetIdOf(env, k.todo[0]))
  {
    var k := s.working[c];
    assert WorkOk(env, s, k);
    RecordedStays(k.began.log, k.stage.read, k.began.table);
    SuccessReaches(k.stage.read, k.stage.events, k.stage.sheet, s.sheets,
                   PayloadAt(env, s.group, k.entry).value, k.began.table, SheetIdOf(env, k.todo[0]), fault);
  }

  lemma RecordedStays(log: seq<L.Event>, log': seq<L.Event>, began: H.Table)
    requires log <= log' && Recorded(log, began)
    ensures Recorded(log', began)
  {
    forall id | id in began ensures RowRecorded(log', id, began[id]) {
      assert RowRecorded(log, id, began[id]);
      var e :| e in log && Records(e, id, began[id]);
      StillInLog(log, log', e);
    }
  }

  lemma DoneHasReached(env: Setting, s: State, a: Action, s': State, c: string)
    requires Inv(env, s) && c in s.working && HasReached(env, s, s.working[c])
    requires c in s'.working && JustDone(env, s, a, s', c) && s'.sheets == AfterWrite(env, s, c, a.fault).sheets
    requires s.group.entries <= s'.group.entries && Rise(s.sheets, s'.sheets)
    ensures HasReached(env, s', s'.working[c])
  {
    assert WorkOk(env, s, s.working[c]);
    HasReachedStays(env, s, s', s.working[c]);
    WriteReaches(env, s, c, a.fault);
    PayloadStays(env, s.group, s'.group, s.working[c].entry);
  }

  lemma StepKeepsReached(env: Setting, s: State, a: Action)
    requires Inv(env, s) && AllReached(env, s) && !WritesOvertaken(env, s, a)
    ensures AllReached(env, Next(env, s, a))
  {
    var s' := Next(env, s, a);
    NextShape(env, s, a);
    StepRisesIff(env, s, a);
    OnlyWritesTouchSheets(env, s, a);
    forall c | c in s'.working ensures HasReached(env, s', s'.working[c]) {
      if SameDone(s, s', c) {
        HasReachedStays(env, s, s', s.working[c]);
      } else if JustDone(env, s, a, s', c) {
        DoneHasReached(env, s, a, s', c);
      }
    }
    forall m | m in s'.finished ensures HasReached(env, s', s'.finished[m]) {
      assert (m in s.finished && s'.finished[m] == s.finished[m]) || WasInProgress(s, s'.finished[m]);
      assert WorkOk(env, s, s'.finished[m]) by {
        assert m in s.finished ==> FinishedOk(env, s, m);
      }
      HasReachedStays(env, s, s', s'.finished[m]);
    }
  }

  lemma StepOfRunKeepsReached(env: Setting, t: Trace, i: nat)
    requires IsRun(env, t) && NothingOvertaken(env, t) && i < |t.actions| && AllReached(env, t.states[i])
    ensures AllReached(env, t.states[i + 1])
  {
    RunKeepsInv(env, t, i);
    assert StepAt(env, t, i);
    StepKeepsReached(env, t.states[i], t.actions[i]);
  }

  lemma BootHasReached(env: Setting)
    ensures AllReached(env, BOOT)
  {
  }

  lemma {:induction false} RunKeepsReached(env: Setting, t: Trace, i: nat)
    requires IsRun(env, t) && NothingOvertaken(env, t) && i < |t.states|
    ensures AllReached(env, t.states[i])
    decreases i
  {
    if i == 0 {
      BootHasReached(env);
    } else {
      RunKeepsReached(env, t, i - 1);
      StepOfRunKeepsReached(env, t, i - 1);
    }
  }

  // ------------------------------------------------------------------ when a job began

  ghost predicate BeganAt(t: Trace, k: int, w: Work)
  {
    0 <= k < |t.actions| && k < |t.states| && BeginsOn(t.states[k], t.actions[k], w.(done := map[]))
  }

  ghost predicate BegunBefore(t: Trace, i: int, w: Work)
  {
    exists k :: k < i && BeganAt(t, k, w)
  }

  /** Jobs in progress and finished jobs began at some earlier step. */
  ghost predicate AllBegun(t: Trace, i: nat)
    requires i < |t.states|
  {
    && (forall c :: c in t.states[i].working ==> BegunBefore(t, i, t.states[i].working[c]))
    && (forall m :: m in t.states[i].finished ==> BegunBefore(t, i, t.states[i].finished[m]))
  }

  lemma BegunStays(t: Trace, i: int, w: Work, w': Work)
    requires BegunBefore(t, i, w) && w'.entry == w.entry && w'.began == w.began
    ensures BegunBefore(t, i + 1, w')
  {
    var k :| k < i && BeganAt(t, k, w);
    assert BeganAt(t, k, w');
  }

  lemma StepKeepsBegun(env: Setting, t: Trace, i: nat)
    requires |t.states| == |t.actions| + 1 && i < |t.actions| && AllBegun(t, i)
    requires StepShape(env, t.states[i], t.actions[i], t.states[i + 1])
    ensures AllBegun(t, i + 1)
  {
    var s, s' := t.states[i], t.states[i + 1];
    forall c | c in s'.working ensures BegunBefore(t, i + 1, s'.working[c]) {
      if BeginsOn(s, t.actions[i], s'.working[c]) {
        assert BeganAt(t, i, s'.working[c]);
      } else {
        assert JustDone(env, s, t.actions[i], s', c) || SameDone(s, s', c);
        BegunStays(t, i, s.working[c], s'.working[c]);
      }
    }
    forall m | m in s'.finished ensures BegunBefore(t, i + 1, s'.finished[m]) {
      assert (m in s.finished && s'.finished[m] == s.finished[m]) || WasInProgress(s, s'.finished[m]);
      BegunStays(t, i, s'.finished[m], s'.finished[m]);
    }
  }

  lemma {:induction false} RunKeepsBegun(env: Setting, t: Trace, i: nat)
    requires IsRun(env, t) && i < |t.states|
    ensures AllBegun(t, i)
    decreases i
  {
    if i > 0 {
      RunKeepsBegun(env, t, i - 1);
      assert StepAt(env, t, i - 1);
      NextShape(env, t.states[i - 1], t.actions[i - 1]);
      StepKeepsBegun(env, t, i - 1);
    }
  }

  // ------------------------------------------------------------------ finished jobs stay as they are

  /** A finished entry has been handled, and what a consumer works on has not, so no entry finishes twice. */
  lemma NoWorkOnFinished(env: Setting, s: State, m: nat, c: string)
    requires Inv(env, s) && m in s.finished && c in s.working
    ensures s.working[c].entry != m
  {
    assert FinishedOk(env, s, m) && InHandOf(s, c);
    assert Q.HoldsFresh(s.group, c);
  }

  lemma FinishedStaysOneStep(env: Setting, s: State, a: Action, m: nat)
    requires Inv(env, s) && m in s.finished
    ensures var s' := Next(env, s, a); m in s'.finished && s'.finished[m] == s.finished[m]
  {
    var s' := Next(env, s, a);
    NextShape(env, s, a);
    NextKeepsInv(env, s, a);
    assert FinishedOk(env, s', m);
    if s'.finished[m] != s.finished[m] {
      var c :| c in s.working && s.working[c] == s'.finished[m];
      NoWorkOnFinished(env, s, m, c);
    }
  }

  lemma StepOfRunKeepsFinished(env: Setting, t: Trace, i: nat, m: nat)
    requires IsRun(env, t) && i < |t.actions| && m in t.states[i].finished
    ensures m in t.states[i + 1].finished && t.states[i + 1].finished[m] == t.states[i].finished[m]
  {
    RunKeepsInv(env, t, i);
    assert StepAt(env, t, i);
    FinishedStaysOneStep(env, t.states[i], t.actions[i], m);
  }

  lemma {:induction false} FinishedStays(env: Setting, t: Trace, i: nat, j: nat, m: nat)
    requires IsRun(env, t) && i <= j < |t.states| && m in t.states[i].finished
    ensures m in t.states[j].finished && t.states[j].finished[m] == t.states[i].finished[m]
    decreases j
  {
    if i < j {
      FinishedStays(env, t, i, j - 1, m);
      StepOfRunKeepsFinished(env, t, j - 1, m);
    }
  }

  // ------------------------------------------------------------------ the acknowledged job

  /** Work on entry m begins with step k. */
  predicate JobBegins(t: Trace, k: int, m: nat)
  {
    && 0 <= k < |t.actions| && k < |t.states| && t.actions[k].Begin?
    && var hand := Q.InHand(t.states[k].group, t.actions[k].consumer); hand != [] && hand[0] == m
  }

  /**
   At the end of the run, connection c of the job has the sheet row of every row that was due when work
   began, in state `from`, unless the limit cut it off in the log that was read for c. That log was read after
   the work began and before the acknowledgement, in state `to`.
   */
  ghost predicate Served(env: Setting, end: State, from: State, to: State, p: SyncJobPayload, w: Work, c: string)
  {
    && Owns(env.connections, p.userId, c) && c in w.done
    && from.world.store.log <= w.done[c] <= to.world.store.log
    && Reached(w.done[c], end.sheets, p, from.world.store.table, SheetIdOf(env, c))
  }

  /**
   In every run in which no write is overtaken: a job that is acknowledged in state i has served every
   connection it is for, and at the end of the run, whatever other jobs, retries or crashes have followed,
   the sheets still hold what it reached.
   */
  lemma AcknowledgedJobReachedItsSheets(env: Setting, t: Trace, m: nat, i: nat) returns (k: nat)
    requires IsRun(env, t) && NothingOvertaken(env, t)
    requires i < |t.states| && m in t.states[i].group.acked
    ensures k < i && JobBegins(t, k, m) && m in End(t).finished
    ensures PayloadAt(env, End(t).group, m).Some?
    ensures var p := PayloadAt(env, End(t).group, m).value;
      forall c :: IsTarget(env, p, c) ==> Served(env, End(t), t.states[k], t.states[i], p, End(t).finished[m], c)
  {
    RunKeepsInv(env, t, i);
    RunKeepsInv(env, t, |t.actions|);
    RunKeepsReached(env, t, |t.actions|);
    RunKeepsBegun(env, t, i);
    FinishedStays(env, t, i, |t.actions|, m);
    var w := t.states[i].finished[m];
    assert FinishedOk(env, t.states[i], m) && FinishedOk(env, End(t), m);
    assert BegunBefore(t, i, w);
    k :| k < i && BeganAt(t, k, w);
    var p := PayloadAt(env, End(t).group, m).value;
    forall c | IsTarget(env, p, c) ensures Served(env, End(t), t.states[k], t.states[i], p, w, c) {
      FinishedServes(env, t.states[k], t.states[i], End(t), m, p, c);
    }
  }

  lemma FinishedServes(env: Setting, from: State, to: State, end: State, m: nat, p: SyncJobPayload, c: string)
    requires m in to.finished && FinishedOk(env, to, m) && m in end.finished && FinishedOk(env, end, m)
    requires end.finished[m] == to.finished[m] && to.finished[m].began == from.world.store
    requires HasReached(env, end, end.finished[m]) && PayloadAt(env, end.group, m) == Some(p) && IsTarget(env, p, c)
    ensures Served(env, end, from, to, p, to.finished[m], c)
  {
  }

  // ------------------------------------------------------------------ queued jobs and their mutations

  lemma EncodedPayloadIsRead(env: Setting, j: L.SyncJob, g: Q.Group)
    requires TextIsRead(env, PayloadOf(j)) && g.delivered <= |g.entries|
    ensures PayloadAt(env, Q.Next(g, Q.Enqueue(MessageOf(env, j))), |g.entries|) == Some(PayloadOf(j))
  {
    Q.DecodeInvertsEncode(MessageOf(env, j), |g.entries|);
  }

  /** The job for an event that has been committed. */
  function JobOf(e: L.Event): SyncJobPayload
  {
    SyncJobPayload(e.userId, "", e.version - 1)
  }

  /** From s to s1 the job for e, which is then committed, is put behind all stream entries. */
  ghost predicate Queued(env: Setting, s: State, s1: State, e: L.Event)
  {
    && e in s1.world.store.log && PayloadAt(env, s1.group, |s.group.entries|) == Some(JobOf(e))
  }

  /** A ledger step that queues a job has committed one event, and the job is the one for that event. */
  lemma QueueingCommits(w: L.World, a: L.Action) returns (e: L.Event)
    requires |L.Next(w, a).jobs| > |w.jobs|
    ensures var w' := L.Next(w, a);
      w'.store.log == w.store.log + [e] && IsMutationOf(e, w'.jobs[|w'.jobs| - 1])
  {
    e := L.Next(w, a).store.log[|w.store.log|];
  }

  /** A client step that queues a job queues the job of the event it commits, and a consumer can read it. */
  lemma CommitQueues(env: Setting, s: State, a: L.Action) returns (e: L.Event)
    requires s.group.delivered <= |s.group.entries| && |L.Next(s.world, a).jobs| > |s.world.jobs|
    requires var jobs := L.Next(s.world, a).jobs; TextIsRead(env, PayloadOf(jobs[|jobs| - 1]))
    ensures Queued(env, s, Next(env, s, Client(a)), e)
    ensures Next(env, s, Client(a)).world.store.log == s.world.store.log + [e]
    ensures var n, entries := |s.group.entries|, Next(env, s, Client(a)).group.entries;
      && |entries| == n + 1 && entries[..n] == s.group.entries
      && Q.DecodeMessage(n, entries[n]) ==
         Q.Message(n, "transaction", e.opType, env.text(SyncJobPayload(e.userId, "", e.version - 1)), 0)
  {
    e := QueueingCommits(s.world, a);
    var jobs := L.Next(s.world, a).jobs;
    EncodedPayloadIsRead(env, jobs[|jobs| - 1], s.group);
  }

  /** So does a client that enqueues the job in a step of its own, any time after the commit. */
  lemma PublishQueues(env: Setting, s: State, e: L.Event, j: L.SyncJob)
    requires TextIsRead(env, PayloadOf(j)) && s.group.delivered <= |s.group.entries|
    requires e in s.world.store.log && IsMutationOf(e, j)
    ensures Queued(env, s, Next(env, s, Publish(MessageOf(env, j))), e)
  {
    EncodedPayloadIsRead(env, j, s.group);
  }

  ghost predicate Grows(s: State, s': State)
  {
    s.world.store.log <= s'.world.store.log && s.group.entries <= s'.group.entries
  }

  lemma StepGrows(env: Setting, s: State, a: Action)
    requires s.group.delivered <= |s.group.entries|
    ensures Grows(s, Next(env, s, a))
  {
    NextShape(env, s, a);
    if a.Client? {
      LedgerStepExtendsLog(s.world, a.action);
    }
  }

  lemma GrowsOn(s: State, t: State, u: State)
    requires Grows(s, t) && Grows(t, u)
    ensures Grows(s, u)
  {
  }

  /** Log and stream only grow along a run. */
  lemma {:induction false} RunGrows(env: Setting, t: Trace, i: nat, j: nat)
    requires IsRun(env, t) && i <= j < |t.states|
    ensures Grows(t.states[i], t.states[j])
    decreases j
  {
    if i < j {
      RunGrows(env, t, i, j - 1);
      assert StepAt(env, t, j - 1);
      StepGrows(env, t.states[j - 1], t.actions[j - 1]);
      GrowsOn(t.states[i], t.states[j - 1], t.states[j]);
    }
  }

  /** Work on a stream entry begins only after the step that added it: what is in hand has been in the stream. */
  lemma WorkComesAfterQueueing(env: Setting, t: Trace, q: nat, k: int)
    requires IsRun(env, t) && q < |t.states| && JobBegins(t, k, |t.states[q].group.entries|)
    ensures k > q
  {
    RunKeepsInv(env, t, k);
    assert Q.HoldsFresh(t.states[k].group, t.actions[k].consumer);
    if k <= q {
      RunGrows(env, t, k, q);
    }
  }

  lemma InTable(w: L.World, e: L.Event)
    requires H.Inv(w) && e in w.store.log
    ensures e.entityId in w.store.table
    ensures w.store.table[e.entityId].userId == e.userId && w.store.table[e.entityId].version >= e.version
  {
    var i :| 0 <= i < |w.store.log| && w.store.log[i] == e;
    H.VersionBound(w.store.log, i);
  }

  /** Step q queues the job of event e. */
  ghost predicate QueuedAt(env: Setting, t: Trace, q: int, e: L.Event)
  {
    0 <= q < |t.actions| && |t.states| == |t.actions| + 1 && Queued(env, t.states[q], t.states[q + 1], e)
  }

  /** The table that a later step finds has the row of the mutation. */
  lemma MutationIsDue(env: Setting, t: Trace, q: nat, e: L.Event, k: int)
    requires IsRun(env, t) && QueuedAt(env, t, q, e) && q < k < |t.states|
    ensures IsDue(t.states[k].world.store.table, e.userId, e.version - 1, e.entityId)
    ensures t.states[k].world.store.table[e.entityId].version >= e.version
  {
    RunGrows(env, t, q + 1, k);
    StillInLog(t.states[q + 1].world.store.log, t.states[k].world.store.log, e);
    RunKeepsInv(env, t, k);
    InTable(t.states[k].world, e);
  }

  lemma QueuedPayloadStays(env: Setting, t: Trace, q: nat, e: L.Event)
    requires IsRun(env, t) && QueuedAt(env, t, q, e)
    ensures PayloadAt(env, End(t).group, |t.states[q].group.entries|) == Some(JobOf(e))
  {
    RunGrows(env, t, q + 1, |t.actions|);
    PayloadStays(env, t.states[q + 1].group, End(t).group, |t.states[q].group.entries|);
  }

  /** Every sheet of the user holds the row of an id at version v or above. */
  ghost predicate OnAllSheets(env: Setting, s: State, userId: string, id: string, v: int)
  {
    forall c :: Owns(env.connections, userId, c) ==> RowAtLeast(s.sheets, SheetIdOf(env, c), id, v)
  }

  /** In fields: the sheet of each of the user's connections has the row, and its version is v or above. */
  lemma OnAllSheetsIff(env: Setting, s: State, userId: string, id: string, v: int)
    ensures OnAllSheets(env, s, userId, id, v) <==>
      forall c | c in env.connections && env.connections[c].userId == userId ::
        var sheetId := env.connections[c].sheetId;
        && sheetId in s.sheets && id in s.sheets[sheetId]
        && SheetRows.ExtractVersion(s.sheets[sheetId][id].payload) >= v
  {
    if OnAllSheets(env, s, userId, id, v) {
      forall c | c in env.connections && env.connections[c].userId == userId
        ensures RowAtLeast(s.sheets, env.connections[c].sheetId, id, v)
      {
        assert Owns(env.connections, userId, c);
      }
    }
  }

  /** What fits in the log at the acknowledgement fitted in every log that the job read. */
  lemma ServedEverywhere(env: Setting, end: State, from: State, to: State, e: L.Event, w: Work)
    requires forall c :: IsTarget(env, JobOf(e), c) ==> Served(env, end, from, to, JobOf(e), w, c)
    requires IsDue(from.world.store.table, e.userId, e.version - 1, e.entityId)
    requires Fits(to.world.store.log, e.userId, e.version - 1, EVENT_LIMIT, from.world.store.table[e.entityId].version)
    ensures OnAllSheets(env, end, e.userId, e.entityId, from.world.store.table[e.entityId].version)
  {
    var v := from.world.store.table[e.entityId].version;
    forall c | Owns(env.connections, e.userId, c)
      ensures RowAtLeast(end.sheets, SheetIdOf(env, c), e.entityId, v)
    {
      assert IsTarget(env, JobOf(e), c) && Served(env, end, from, to, JobOf(e), w, c);
      FitsEarlier(w.done[c], to.world.store.log, e.userId, e.version - 1, EVENT_LIMIT, v);
    }
  }

  /**
   From commit to sheet, over the whole system, in every run in which no write is overtaken: step q queues
   the job of a committed event e; once the job's stream entry is acknowledged, in state i, e's row is on the
   sheet of every connection of its user, and stays there, at or above the version that the table held when
   work on the job began, at some step k after q, which is at or above e's version; provided the selected
   events up to that version fitted under the limit at the acknowledgement.
   */
  lemma AcknowledgedMutationIsOnSheets(env: Setting, t: Trace, q: nat, e: L.Event, i: nat) returns (k: nat)
    requires IsRun(env, t) && NothingOvertaken(env, t) && QueuedAt(env, t, q, e)
    requires i < |t.states| && |t.states[q].group.entries| in t.states[i].group.acked
    ensures q < k < i && JobBegins(t, k, |t.states[q].group.entries|)
    ensures var began := t.states[k].world.store.table;
      && IsDue(began, e.userId, e.version - 1, e.entityId) && began[e.entityId].version >= e.version
      && (Fits(t.states[i].world.store.log, e.userId, e.version - 1, EVENT_LIMIT, began[e.entityId].version) ==>
          OnAllSheets(env, End(t), e.userId, e.entityId, began[e.entityId].version))
  {
    var m := |t.states[q].group.entries|;
    k := AcknowledgedJobReachedItsSheets(env, t, m, i);
    WorkComesAfterQueueing(env, t, q, k);
    MutationIsDue(env, t, q, e, k);
    QueuedPayloadStays(env, t, q, e);
    var v := t.states[k].world.store.table[e.entityId].version;
    if Fits(t.states[i].world.store.log, e.userId, e.version - 1, EVENT_LIMIT, v) {
      ServedEverywhere(env, End(t), t.states[k], t.states[i], e, End(t).finished[m]);
    }
  }
}
