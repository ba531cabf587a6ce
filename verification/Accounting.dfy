/**
 What an additive projection of a replayable log equals: the aggregate over the live rows, plus
 exactly the aggregate over the versions that an update has overwritten.
 */
module Accounting {
  import opened Ledger
  import opened LedgerHistory
  import opened Projection
  import opened Sums

  /** What each live row weighs. */
  ghost function LiveParts(t: Table, f: Measure): (parts: map<string, int>)
    ensures forall id :: id in parts <==> id in t && t[id].deletedAt.None?
    ensures forall id :: id in parts ==> parts[id] == f(t[id].userId, t[id].content)
  {
    map id | id in t && t[id].Live() :: f(t[id].userId, t[id].content)
  }

  ghost function LiveTotal(t: Table, f: Measure): int
  {
    MapSum(LiveParts(t, f))
  }

  /** The version that event i recorded has since been replaced by an update. */
  ghost predicate Overwritten(log: seq<Event>, i: int)
    requires 0 <= i < |log|
  {
    exists j :: 0 <= j < |log| && Overwrites(log[j], log[i])
  }

  predicate Overwrites(e: Event, d: Event)
  {
    e.entityId == d.entityId && e.opType == "update" && e.version == d.version + 1
  }

  function Weight(e: Event, f: Measure): int
  {
    if e.payload.Json? then f(e.payload.row.userId, e.payload.row.content) else 0
  }

  /** Sum of a measure over the overwritten versions among the first n events. */
  ghost function OverwrittenUpTo(log: seq<Event>, n: nat, f: Measure): int
    requires n <= |log|
  {
    if n == 0 then 0
    else OverwrittenUpTo(log, n - 1, f) + (if Overwritten(log, n - 1) then Weight(log[n - 1], f) else 0)
  }

  ghost function OverwrittenTotal(log: seq<Event>, f: Measure): int
  {
    OverwrittenUpTo(log, |log|, f)
  }

  // ------------------------------------------------------------------ one more event

  lemma OverwrittenAppend(log: seq<Event>, e: Event, i: int)
    requires 0 <= i < |log|
    ensures Overwritten(log + [e], i) <==> Overwritten(log, i) || Overwrites(e, log[i])
  {
    var log' := log + [e];
    if Overwritten(log, i) {
      var j :| 0 <= j < |log| && Overwrites(log[j], log[i]);
      assert Overwrites(log'[j], log'[i]);
    }
    if Overwrites(e, log[i]) {
      assert Overwrites(log'[|log|], log'[i]);
    }
    if Overwritten(log', i) {
      var j :| 0 <= j < |log'| && Overwrites(log'[j], log'[i]);
      assert j < |log| ==> Overwrites(log[j], log[i]);
    }
  }

  /** No event overwrites one that only comes after it. */
  lemma EarlierDoesNotOverwrite(log: seq<Event>, e: Event, j: int)
    requires Replay(log).Some? && Accepts(Replay(log).value, e) && 0 <= j < |log|
    ensures !Overwrites(log[j], e)
  {
    VersionBound(log, j);
  }

  /** The newest event is nobody's past. */
  lemma NewestNotOverwritten(log: seq<Event>, e: Event)
    requires Replay(log).Some? && Accepts(Replay(log).value, e)
    ensures !Overwritten(log + [e], |log|)
  {
    forall j | 0 <= j < |log + [e]| ensures !Overwrites((log + [e])[j], e) {
      if j < |log| {
        EarlierDoesNotOverwrite(log, e, j);
      }
    }
  }

  /** Appending an update overwrites exactly one more version: the one at index k. */
  lemma {:induction false} UpdateOverwritesOne(log: seq<Event>, e: Event, k: nat, n: nat, f: Measure)
    requires Replay(log).Some? && n <= |log| && k < |log|
    requires Overwrites(e, log[k])
    requires e.entityId in Replay(log).value && e.version == Replay(log).value[e.entityId].version + 1
    ensures OverwrittenUpTo(log + [e], n, f) == OverwrittenUpTo(log, n, f) + (if k < n then Weight(log[k], f) else 0)
    decreases n
  {
    if n > 0 {
      UpdateOverwritesOne(log, e, k, n - 1, f);
      OverwrittenAppend(log, e, n - 1);
      if n - 1 == k {
        forall j | 0 <= j < |log| ensures !Overwrites(log[j], log[k]) {
          VersionBound(log, j);
        }
      } else if Overwrites(e, log[n - 1]) {
        VersionsAscend(log, if k < n - 1 then k else n - 1, if k < n - 1 then n - 1 else k);
        assert false;
      }
    }
  }

  lemma {:induction false} OthersOverwriteNone(log: seq<Event>, e: Event, n: nat, f: Measure)
    requires n <= |log| && e.opType != "update"
    ensures OverwrittenUpTo(log + [e], n, f) == OverwrittenUpTo(log, n, f)
    decreases n
  {
    if n > 0 {
      OthersOverwriteNone(log, e, n - 1, f);
      OverwrittenAppend(log, e, n - 1);
    }
  }

  lemma LivePut(t: Table, id: string, row: Row, f: Measure)
    ensures LiveParts(t[id := row], f) ==
      if row.Live() then LiveParts(t, f)[id := f(row.userId, row.content)] else LiveParts(t, f) - {id}
  {
  }

  /** What the row of an id adds to the live total; nothing if there is none or it is deleted. */
  function LivePart(t: Table, id: string, f: Measure): int
  {
    if id in t && t[id].Live() then f(t[id].userId, t[id].content) else 0
  }

  lemma LiveTotalPut(t: Table, id: string, row: Row, f: Measure)
    ensures LiveTotal(t[id := row], f) ==
      LiveTotal(t, f) - LivePart(t, id, f) + (if row.Live() then f(row.userId, row.content) else 0)
  {
    var parts := LiveParts(t, f);
    LivePut(t, id, row, f);
    assert LivePart(t, id, f) == if id in parts then parts[id] else 0;
    if row.Live() {
      MapSumPut(parts, id, f(row.userId, row.content));
    } else {
      MapSumDrop(parts, id);
    }
  }

  /** How one accepted event moves the live total. */
  lemma LiveStep(t: Table, e: Event, f: Measure)
    requires Accepts(t, e)
    ensures LiveTotal(t[e.entityId := e.payload.row], f) == LiveTotal(t, f) + Delta(e, f)
      - (if e.opType == "update" then f(t[e.entityId].userId, t[e.entityId].content) else 0)
  {
    LiveTotalPut(t, e.entityId, e.payload.row, f);
  }

  lemma OverwrittenStep(log: seq<Event>, e: Event, f: Measure)
    requires Replay(log).Some? && Accepts(Replay(log).value, e)
    ensures OverwrittenTotal(log + [e], f) == OverwrittenTotal(log, f)
      + (if e.opType == "update" then f(Replay(log).value[e.entityId].userId, Replay(log).value[e.entityId].content)
        else 0)
  {
    NewestNotOverwritten(log, e);
    assert OverwrittenTotal(log + [e], f) == OverwrittenUpTo(log + [e], |log|, f);
    if e.opType == "update" {
      var k := LastOf(log, e.entityId);
      UpdateOverwritesOne(log, e, k, |log|, f);
    } else {
      OthersOverwriteNone(log, e, |log|, f);
    }
  }

  /** The accounting identity, for every measure and every log that replays. */
  lemma {:induction false} ProjectionIsLivePlusOverwritten(log: seq<Event>, f: Measure)
    requires Replay(log).Some?
    ensures Signed(log, f) == LiveTotal(Replay(log).value, f) + OverwrittenTotal(log, f)
    decreases |log|
  {
    if |log| > 0 {
      var front, e := log[..|log| - 1], log[|log| - 1];
      assert log == front + [e];
      ProjectionIsLivePlusOverwritten(front, f);
      LiveStep(Replay(front).value, e, f);
      OverwrittenStep(front, e, f);
    }
  }

  // ------------------------------------------------------------------ when nothing is overwritten

  predicate UpdateFree(log: seq<Event>)
  {
    forall i :: 0 <= i < |log| ==> log[i].opType != "update"
  }

  lemma {:induction false} NothingOverwritten(log: seq<Event>, n: nat, f: Measure)
    requires UpdateFree(log) && n <= |log|
    ensures OverwrittenUpTo(log, n, f) == 0
    decreases n
  {
    if n > 0 {
      NothingOverwritten(log, n - 1, f);
    }
  }

  lemma {:induction false} OverwrittenCountGrows(log: seq<Event>, m: nat, n: nat, f: Measure)
    requires m <= n <= |log| && forall u, c :: f(u, c) >= 0
    ensures 0 <= OverwrittenUpTo(log, m, f) <= OverwrittenUpTo(log, n, f)
    decreases n
  {
    if m < n {
      OverwrittenCountGrows(log, m, n - 1, f);
    } else if n > 0 {
      OverwrittenCountGrows(log, n - 1, n - 1, f);
    }
  }

  /** The event that an update replaced: same entity, previous version. */
  lemma Predecessor(log: seq<Event>, j: int) returns (k: int)
    requires Replay(log).Some? && 0 <= j < |log| && log[j].opType == "update"
    ensures 0 <= k < j && Overwrites(log[j], log[k]) && log[k].payload.Json?
  {
    var front := log[..j];
    ReplayPrefix(log, j + 1);
    assert log[..j + 1][..j] == front;
    k := LastOf(front, log[j].entityId);
  }

  lemma {:induction false} ReplayPrefix(log: seq<Event>, n: nat)
    requires Replay(log).Some? && n <= |log|
    ensures Replay(log[..n]).Some?
    decreases |log|
  {
    if n == |log| {
      assert log[..n] == log;
    } else {
      ReplayPrefix(log[..|log| - 1], n);
      assert log[..|log| - 1][..n] == log[..n];
    }
  }

  /** An update in the log leaves a trace in some bucket's overwritten count. */
  lemma UpdateLeavesTrace(log: seq<Event>, j: int) returns (k: SummaryKey)
    requires Replay(log).Some? && 0 <= j < |log| && log[j].opType == "update"
    ensures OverwrittenTotal(log, CountIn(k)) > 0
  {
    var i := Predecessor(log, j);
    k := SummaryKeyOf(log[i].payload.row.userId, log[i].payload.row.content);
    OverwrittenCountGrows(log, i + 1, |log|, CountIn(k));
    OverwrittenCountGrows(log, i, i, CountIn(k));
    assert Overwritten(log, i);
  }
}
