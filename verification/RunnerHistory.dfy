/**
 What the projection loop guarantees: at-least-once delivery for any pattern of failures, exactly
 when it is exactly-once, and, without failures, independence of the batch size.
 */
module RunnerHistory {
  import opened Ledger
  import opened LedgerHistory
  import opened Projection
  import opened Rounding
  import opened Runner

  /** Event ids are positive and the log is kept in id order. */
  predicate LogOk(log: seq<Event>)
  {
    IdsAscend(log) && forall i :: 0 <= i < |log| ==> log[i].id > 0
  }

  // ------------------------------------------------------------------ the listing query

  /** How many events lie at or below an id. */
  function Cut(log: seq<Event>, since: int): (n: nat)
    ensures n <= |log|
  {
    if |log| == 0 then 0
    else if log[|log| - 1].id <= since then |log|
    else Cut(log[..|log| - 1], since)
  }

  lemma {:induction false} CutSplits(log: seq<Event>, since: int)
    requires IdsAscend(log)
    ensures forall i :: 0 <= i < Cut(log, since) ==> log[i].id <= since
    ensures forall i :: Cut(log, since) <= i < |log| ==> log[i].id > since
    decreases |log|
  {
    if |log| > 0 && log[|log| - 1].id > since {
      CutSplits(log[..|log| - 1], since);
    }
  }

  lemma SuffixGrows(front: seq<Event>, last: Event, n: nat)
    requires n <= |front|
    ensures (front + [last])[n..] == front[n..] + [last]
  {
  }

  lemma {:induction false} AboveIsSuffix(log: seq<Event>, since: int)
    requires IdsAscend(log)
    ensures Above(log, since) == log[Cut(log, since)..]
    decreases |log|
  {
    if |log| > 0 {
      var front, last := log[..|log| - 1], log[|log| - 1];
      assert log == front + [last];
      if last.id <= since {
        NoneAbove(log, since);
      } else {
        AboveIsSuffix(front, since);
        SuffixGrows(front, last, Cut(front, since));
      }
    }
  }

  lemma {:induction false} NoneAbove(log: seq<Event>, since: int)
    requires forall i :: 0 <= i < |log| ==> log[i].id <= since
    ensures Above(log, since) == []
    decreases |log|
  {
    if |log| > 0 {
      NoneAbove(log[..|log| - 1], since);
    }
  }

  /** On an ordered log the query returns the contiguous stretch right after the cursor. */
  lemma ListSinceIsWindow(log: seq<Event>, since: int, b: int)
    requires IdsAscend(log) && b > 0
    ensures ListSince(log, since, b) == Window(log, since, b)
  {
    AboveIsSuffix(log, since);
    var n := Cut(log, since);
    assert log[n..][..Min(b, |log| - n)] == log[n..Min(n + b, |log|)];
  }

  /** What WHERE id > since ORDER BY id LIMIT b must return, whatever order the table's rows are kept in. */
  ghost predicate IsOrderedPage(log: seq<Event>, since: int, b: int, out: seq<Event>)
  {
    && IdsAscend(out)
    && (forall e :: e in out ==> e in log && e.id > since)
    && |out| <= b
    && (forall e :: e in log && e.id > since && e !in out ==> |out| == b && forall d :: d in out ==> d.id < e.id)
  }

  /** The first b events past an id. */
  function Window(log: seq<Event>, since: int, b: int): seq<Event>
  {
    log[Cut(log, since)..WindowEnd(log, since, b)]
  }

  function WindowEnd(log: seq<Event>, since: int, b: int): (hi: nat)
    ensures Cut(log, since) <= hi <= |log|
  {
    Min(Cut(log, since) + (if b > 0 then b else 0), |log|)
  }

  lemma InWindow(log: seq<Event>, lo: nat, hi: nat, i: nat)
    requires lo <= i < hi <= |log|
    ensures log[i] in log[lo..hi]
  {
    assert log[lo..hi][i - lo] == log[i];
  }

  lemma WindowIsOrdered(log: seq<Event>, lo: nat, hi: nat)
    requires IdsAscend(log) && lo <= hi <= |log|
    ensures IdsAscend(log[lo..hi])
    ensures forall e :: e in log[lo..hi] ==> e in log && exists i :: lo <= i < hi && log[i] == e
  {
  }

  /** A window that starts right past the cursor is a page, if it is full or reaches the end. */
  lemma WindowIsPage(log: seq<Event>, since: int, b: int, lo: nat, hi: nat)
    requires IdsAscend(log) && lo <= hi <= |log| && hi - lo <= b && (hi - lo == b || hi == |log|)
    requires forall i :: 0 <= i < lo ==> log[i].id <= since
    requires forall i :: lo <= i < |log| ==> log[i].id > since
    ensures IsOrderedPage(log, since, b, log[lo..hi])
  {
    WindowIsOrdered(log, lo, hi);
    forall e | e in log && e.id > since && e !in log[lo..hi]
      ensures hi < |log| && forall d :: d in log[lo..hi] ==> d.id < e.id
    {
      var i :| 0 <= i < |log| && log[i] == e;
      if i < hi {
        InWindow(log, lo, hi, i);
      }
    }
  }

  /** The window is that page. */
  lemma ListSinceIsOrderedPage(log: seq<Event>, since: int, b: int)
    requires IdsAscend(log) && b > 0
    ensures IsOrderedPage(log, since, b, ListSince(log, since, b))
  {
    CutSplits(log, since);
    ListSinceIsWindow(log, since, b);
    WindowIsPage(log, since, b, Cut(log, since), WindowEnd(log, since, b));
  }

  /** No other sequence is: of two pages neither holds an event that the other lacks, and both are in order. */
  lemma OrderedPageUnique(log: seq<Event>, since: int, b: int, p: seq<Event>, q: seq<Event>)
    requires IsOrderedPage(log, since, b, p) && IsOrderedPage(log, since, b, q)
    ensures p == q
  {
    PageWithin(log, since, b, p, q);
    PageWithin(log, since, b, q, p);
    AscendingSize(p);
    AscendingSize(q);
    assert (set d | d in p) == (set d | d in q);
    SameAscending(p, q);
  }

  lemma PageWithin(log: seq<Event>, since: int, b: int, p: seq<Event>, q: seq<Event>)
    requires IsOrderedPage(log, since, b, p) && IsOrderedPage(log, since, b, q)
    ensures forall e :: e in p ==> e in q
  {
    if e :| e in p && e !in q {
      forall d | d in q ensures d in p {
        assert d.id < e.id;
      }
      AscendingCount(q, p, e);
    }
  }

  /** A shorter ascending sequence within a longer one: if the longer has one more element it is longer. */
  lemma AscendingCount(q: seq<Event>, p: seq<Event>, e: Event)
    requires IdsAscend(p) && IdsAscend(q) && (forall d :: d in q ==> d in p) && e in p && e !in q
    ensures |q| < |p|
  {
    var a, c := set d | d in q, set d | d in p;
    AscendingSize(q);
    AscendingSize(p);
    assert a <= c - {e};
    assert |a| <= |c - {e}| by { assert c - {e} == a + ((c - {e}) - a); }
  }

  lemma {:induction false} AscendingSize(q: seq<Event>)
    requires IdsAscend(q)
    ensures |set d | d in q| == |q|
    decreases |q|
  {
    if |q| > 0 {
      var front, last := q[..|q| - 1], q[|q| - 1];
      AscendingSize(front);
      assert q == front + [last];
      assert (set d | d in q) == (set d | d in front) + {last};
    }
  }

  lemma SameFirst(p: seq<Event>, q: seq<Event>)
    requires IdsAscend(p) && IdsAscend(q) && |p| > 0 && |q| > 0 && p[0] in q && q[0] in p
    ensures p[0] == q[0]
  {
    var i :| 0 <= i < |q| && q[i] == p[0];
    var j :| 0 <= j < |p| && p[j] == q[0];
  }

  lemma RestOf(p: seq<Event>, e: Event)
    requires IdsAscend(p) && |p| > 0
    ensures e in p[1..] <==> e in p && e != p[0]
  {
    assert p == [p[0]] + p[1..];
  }

  lemma {:induction false} SameAscending(p: seq<Event>, q: seq<Event>)
    requires IdsAscend(p) && IdsAscend(q) && |p| == |q| && forall e :: e in p <==> e in q
    ensures p == q
    decreases |p|
  {
    if |p| > 0 {
      SameFirst(p, q);
      forall e ensures e in p[1..] <==> e in q[1..] {
        RestOf(p, e);
        RestOf(q, e);
      }
      SameAscending(p[1..], q[1..]);
      assert p == [p[0]] + p[1..] && q == [q[0]] + q[1..];
    }
  }

  lemma {:induction false} MaxIdIsLast(es: seq<Event>)
    requires LogOk(es) && |es| > 0
    ensures MaxId(es) == es[|es| - 1].id
    decreases |es|
  {
    if |es| > 1 {
      MaxIdIsLast(es[..|es| - 1]);
    }
  }

  // ------------------------------------------------------------------ shape of one batch

  /** Where a batch has left a projector pair: m events by the summary, n by the balance. */
  function AppliedTo(p: Progress, es: seq<Event>, m: nat, n: nat): Progress
    requires m <= |es| && n <= |es|
  {
    p.(bySummary := p.bySummary + es[..m], byBalance := p.byBalance + es[..n])
  }

  lemma AppliedToNone(p: Progress, es: seq<Event>)
    ensures AppliedTo(p, es, 0, 0) == p
  {
    assert es[..0] == [];
  }

  lemma AppliedToFront(p: Progress, es: seq<Event>, k: nat, m: nat, n: nat)
    requires m <= k <= |es| && n <= k
    ensures AppliedTo(p, es[..k], m, n) == AppliedTo(p, es, m, n)
  {
    assert es[..k][..m] == es[..m] && es[..k][..n] == es[..n];
  }

  lemma AppliedToNext(p: Progress, es: seq<Event>, k: nat)
    requires k < |es|
    ensures var q := AppliedTo(p, es, k, k);
      && AppliedTo(p, es, k + 1, k) == q.(bySummary := q.bySummary + [es[k]])
      && AppliedTo(p, es, k + 1, k + 1) == q.(bySummary := q.bySummary + [es[k]], byBalance := q.byBalance + [es[k]])
  {
    assert es[..k + 1] == es[..k] + [es[k]];
  }

  /** A batch is applied as two prefixes; the summary is level with the balance or one event ahead. */
  lemma {:induction false} BatchShape(p: Progress, es: seq<Event>, faults: Faults) returns (m: nat, n: nat)
    ensures n <= m <= |es| && m <= n + 1
    ensures var b := ApplyBatch(p, es, faults);
      && b.progress == AppliedTo(p, es, m, n)
      && (b.ok <==> n == |es|)
      && (!b.ok ==> (m == n <==> !ProcessOk(es[n], faults.process(n, 0))))
      && (m > 0 ==> ProcessOk(es[0], faults.process(0, 0)))
    decreases |es|
  {
    m, n := 0, 0;
    AppliedToNone(p, es);
    if |es| > 0 {
      var k := |es| - 1;
      m, n := BatchShape(p, es[..k], faults);
      AppliedToFront(p, es, k, m, n);
      if n == k {
        AppliedToNext(p, es, k);
        if ProcessOk(es[k], faults.process(k, 0)) {
          m := k + 1;
          if ProcessOk(es[k], faults.process(k, 1)) {
            n := k + 1;
          }
        }
      }
    }
  }

  // ------------------------------------------------------------------ at least once, whatever fails

  /** Every event at or below the cursor was applied. */
  predicate Covered(applied: seq<Event>, log: seq<Event>, cursor: int)
  {
    forall e :: e in log && e.id <= cursor ==> e in applied
  }

  /** Nothing was applied but events of the log at or below the cursor or among the first `b` past it. */
  predicate Within(applied: seq<Event>, log: seq<Event>, cursor: int, b: int)
  {
    forall e :: e in applied ==> e in log && (e.id <= cursor || e in Window(log, cursor, b))
  }

  predicate CursorOk(log: seq<Event>, cursor: int)
  {
    cursor == 0 || exists i :: 0 <= i < |log| && log[i].id == cursor
  }

  /**
   Everything at or below the cursor was applied by both processors; anything applied beyond it lies
   among the first `b` events past the cursor; the later processor never overtakes the earlier one.
   */
  predicate AtLeastOnce(p: Progress, log: seq<Event>, b: int)
  {
    && CursorOk(log, p.cursor)
    && Covered(p.bySummary, log, p.cursor) && Covered(p.byBalance, log, p.cursor)
    && Within(p.bySummary, log, p.cursor, b) && Within(p.byBalance, log, p.cursor, b)
    && multiset(p.byBalance) <= multiset(p.bySummary)
  }

  lemma PrefixCounts(a: seq<Event>, es: seq<Event>, c: seq<Event>, m: nat, n: nat)
    requires n <= m <= |es| && multiset(c) <= multiset(a)
    ensures multiset(c + es[..n]) <= multiset(a + es[..m])
  {
    assert es[..m] == es[..n] + es[n..m];
  }

  /** Applying part of the listed batch keeps both bounds. */
  lemma PartOfBatch(applied: seq<Event>, log: seq<Event>, cursor: int, b: int, n: nat)
    requires IdsAscend(log) && n <= |Window(log, cursor, b)|
    requires Covered(applied, log, cursor) && Within(applied, log, cursor, b)
    ensures Covered(applied + Window(log, cursor, b)[..n], log, cursor)
    ensures Within(applied + Window(log, cursor, b)[..n], log, cursor, b)
  {
    var es := Window(log, cursor, b);
    WindowIsOrdered(log, Cut(log, cursor), WindowEnd(log, cursor, b));
    assert forall e :: e in es[..n] ==> e in es;
  }

  lemma SliceIsFit(log: seq<Event>, lo: nat, hi: nat)
    requires LogOk(log) && lo <= hi <= |log|
    ensures LogOk(log[lo..hi])
  {
  }

  lemma MaxIdOfWindow(log: seq<Event>, lo: nat, hi: nat)
    requires LogOk(log) && lo < hi <= |log|
    ensures MaxId(log[lo..hi]) == log[hi - 1].id
  {
    SliceIsFit(log, lo, hi);
    MaxIdIsLast(log[lo..hi]);
  }

  lemma AboveCut(log: seq<Event>, since: int, i: nat)
    requires IdsAscend(log) && Cut(log, since) <= i < |log|
    ensures log[i].id > since
  {
    CutSplits(log, since);
  }

  lemma BelowCut(log: seq<Event>, since: int)
    requires IdsAscend(log)
    ensures forall i :: 0 <= i < Cut(log, since) ==> log[i].id <= since
  {
    CutSplits(log, since);
  }

  /** The whole batch ends at its largest id, which lies past the cursor. */
  lemma WholeBatchEnds(log: seq<Event>, cursor: int, b: int)
    requires LogOk(log) && Window(log, cursor, b) != []
    ensures var lo, hi := Cut(log, cursor), WindowEnd(log, cursor, b);
      lo < hi && MaxId(Window(log, cursor, b)) == log[hi - 1].id > cursor
  {
    MaxIdOfWindow(log, Cut(log, cursor), WindowEnd(log, cursor, b));
    AboveCut(log, cursor, WindowEnd(log, cursor, b) - 1);
  }

  lemma WholeBatchCovers(applied: seq<Event>, log: seq<Event>, cursor: int, lo: nat, hi: nat)
    requires IdsAscend(log) && lo < hi <= |log| && Covered(applied, log, cursor)
    requires forall i :: 0 <= i < lo ==> log[i].id <= cursor
    ensures Covered(applied + log[lo..hi], log, log[hi - 1].id)
  {
    forall e | e in log && e.id <= log[hi - 1].id ensures e in applied + log[lo..hi] {
      var i :| 0 <= i < |log| && log[i] == e;
      if lo <= i {
        assert i < hi && e == log[lo..hi][i - lo];
      }
    }
  }

  lemma WholeBatchStaysWithin(applied: seq<Event>, log: seq<Event>, cursor: int, b: int, lo: nat, hi: nat)
    requires IdsAscend(log) && lo < hi <= |log| && log[hi - 1].id >= cursor
    requires Within(applied, log, cursor, b) && Window(log, cursor, b) == log[lo..hi]
    ensures Within(applied + log[lo..hi], log, log[hi - 1].id, b)
  {
    forall e | e in log[lo..hi] ensures e in log && e.id <= log[hi - 1].id {
      var i :| lo <= i < hi && log[i] == e;
    }
  }

  /** Applying the whole batch covers everything up to its largest id. */
  lemma WholeBatchCovered(applied: seq<Event>, log: seq<Event>, cursor: int, b: int)
    requires LogOk(log) && Window(log, cursor, b) != [] && Covered(applied, log, cursor)
    ensures Covered(applied + Window(log, cursor, b), log, MaxId(Window(log, cursor, b)))
  {
    WholeBatchEnds(log, cursor, b);
    BelowCut(log, cursor);
    WholeBatchCovers(applied, log, cursor, Cut(log, cursor), WindowEnd(log, cursor, b));
  }

  /** Nothing of the whole batch lies past its largest id. */
  lemma WholeBatchWithin(applied: seq<Event>, log: seq<Event>, cursor: int, b: int)
    requires LogOk(log) && Window(log, cursor, b) != [] && Within(applied, log, cursor, b)
    ensures Within(applied + Window(log, cursor, b), log, MaxId(Window(log, cursor, b)), b)
  {
    WholeBatchEnds(log, cursor, b);
    WholeBatchStaysWithin(applied, log, cursor, b, Cut(log, cursor), WindowEnd(log, cursor, b));
  }

  /** A batch that stopped part way. */
  lemma PartKeepsAtLeastOnce(p: Progress, log: seq<Event>, b: int, m: nat, n: nat)
    requires IdsAscend(log) && AtLeastOnce(p, log, b) && n <= m <= |Window(log, p.cursor, b)|
    ensures var es := Window(log, p.cursor, b);
      AtLeastOnce(Progress(p.cursor, p.bySummary + es[..m], p.byBalance + es[..n]), log, b)
  {
    PrefixCounts(p.bySummary, Window(log, p.cursor, b), p.byBalance, m, n);
    PartOfBatch(p.bySummary, log, p.cursor, b, m);
    PartOfBatch(p.byBalance, log, p.cursor, b, n);
  }

  /** A whole batch, with the cursor moved to its largest id. */
  lemma WholeKeepsAtLeastOnce(p: Progress, log: seq<Event>, b: int)
    requires LogOk(log) && AtLeastOnce(p, log, b) && Window(log, p.cursor, b) != []
    ensures var es := Window(log, p.cursor, b);
      AtLeastOnce(Progress(MaxId(es), p.bySummary + es, p.byBalance + es), log, b)
  {
    assert CursorOk(log, MaxId(Window(log, p.cursor, b))) by { WholeBatchEnds(log, p.cursor, b); }
    WholeBatchCovered(p.bySummary, log, p.cursor, b);
    WholeBatchCovered(p.byBalance, log, p.cursor, b);
    WholeBatchWithin(p.bySummary, log, p.cursor, b);
    WholeBatchWithin(p.byBalance, log, p.cursor, b);
  }

  lemma RoundKeepsAtLeastOnce(p: Progress, log: seq<Event>, b: int, faults: Faults)
    requires LogOk(log) && b > 0 && AtLeastOnce(p, log, b)
    ensures AtLeastOnce(Round(p, log, b, faults), log, b)
  {
    if !faults.get && !faults.list {
      var es := Window(log, p.cursor, b);
      ListSinceIsWindow(log, p.cursor, b);
      var m, n := BatchShape(p, es, faults);
      PartKeepsAtLeastOnce(p, log, b, m, n);
      if n == |es| && n > 0 {
        assert es[..n] == es && m == n;
        WholeKeepsAtLeastOnce(p, log, b);
      }
    }
  }

  lemma {:induction false} CutIs(log: seq<Event>, since: int, n: nat)
    requires n <= |log|
    requires forall i :: 0 <= i < n ==> log[i].id <= since
    requires forall i :: n <= i < |log| ==> log[i].id > since
    ensures Cut(log, since) == n
    decreases |log|
  {
    if n < |log| {
      CutIs(log[..|log| - 1], since, n);
    }
  }

  /** New events arrive with higher ids: nothing slips in below the cursor. */
  lemma GrowthStaysAbove(log: seq<Event>, log': seq<Event>, cursor: int)
    requires LogOk(log) && LogOk(log') && log <= log' && CursorOk(log, cursor)
    ensures Cut(log, cursor) == Cut(log', cursor)
    ensures forall i :: |log| <= i < |log'| ==> log'[i].id > cursor
  {
    if cursor != 0 {
      var k :| 0 <= k < |log| && log[k].id == cursor;
      assert log'[k].id == cursor;
    }
    CutSplits(log, cursor);
    assert forall i :: 0 <= i < |log| ==> log'[i] == log[i];
    CutIs(log', cursor, Cut(log, cursor));
  }

  /** What is listed stays listed. */
  lemma GrowthKeepsWindow(log: seq<Event>, log': seq<Event>, cursor: int, b: int)
    requires LogOk(log) && LogOk(log') && log <= log' && CursorOk(log, cursor)
    ensures forall e :: e in Window(log, cursor, b) ==> e in Window(log', cursor, b)
  {
    GrowthStaysAbove(log, log', cursor);
    var lo, hi := Cut(log, cursor), WindowEnd(log, cursor, b);
    forall e | e in log[lo..hi] ensures e in Window(log', cursor, b) {
      var i :| lo <= i < hi && log[i] == e;
      assert log'[i] == e;
      InWindow(log', lo, WindowEnd(log', cursor, b), i);
    }
  }

  /** Below the cursor nothing is new. */
  lemma GrowthKeepsCovered(applied: seq<Event>, log: seq<Event>, log': seq<Event>, cursor: int)
    requires LogOk(log) && LogOk(log') && log <= log' && CursorOk(log, cursor) && Covered(applied, log, cursor)
    ensures Covered(applied, log', cursor)
  {
    GrowthStaysAbove(log, log', cursor);
    forall e | e in log' && e.id <= cursor ensures e in log {
      var i :| 0 <= i < |log'| && log'[i] == e;
      assert log[i] == e;
    }
  }

  lemma GrowthKeepsWithin(applied: seq<Event>, log: seq<Event>, log': seq<Event>, cursor: int, b: int)
    requires LogOk(log) && LogOk(log') && log <= log' && CursorOk(log, cursor) && Within(applied, log, cursor, b)
    ensures Within(applied, log', cursor, b)
  {
    GrowthKeepsWindow(log, log', cursor, b);
    forall e | e in log ensures e in log' {
      var i :| 0 <= i < |log| && log[i] == e;
      assert log'[i] == e;
    }
  }

  lemma GrowthKeepsAtLeastOnce(p: Progress, log: seq<Event>, log': seq<Event>, b: int)
    requires LogOk(log) && LogOk(log') && log <= log' && b > 0 && AtLeastOnce(p, log, b)
    ensures AtLeastOnce(p, log', b)
  {
    if p.cursor != 0 {
      var k :| 0 <= k < |log| && log[k].id == p.cursor;
      assert log'[k].id == p.cursor;
    }
    GrowthKeepsCovered(p.bySummary, log, log', p.cursor);
    GrowthKeepsCovered(p.byBalance, log, log', p.cursor);
    GrowthKeepsWithin(p.bySummary, log, log', p.cursor, b);
    GrowthKeepsWithin(p.byBalance, log, log', p.cursor, b);
  }

  // ------------------------------------------------------------------ read models as weighted sums

  /** Every event of the log weighed by how often it was applied. */
  function WeightedSum(log: seq<Event>, times: multiset<Event>, f: Measure): int
  {
    if |log| == 0 then 0
    else WeightedSum(log[..|log| - 1], times, f) + times[log[|log| - 1]] * Delta(log[|log| - 1], f)
  }

  /** One more copy of e, in the term of the log's last event. */
  lemma OneMoreCopy(times: multiset<Event>, e: Event, last: Event, f: Measure)
    ensures (times + multiset{e})[last] * Delta(last, f) ==
      times[last] * Delta(last, f) + (if e == last then Delta(e, f) else 0)
  {
    Distribute(times[last], Delta(last, f));
    assert (times + multiset{e})[last] == times[last] + if e == last then 1 else 0;
  }

  lemma LastIsNew(front: seq<Event>, last: Event, e: Event)
    requires IdsAscend(front + [last])
    ensures IdsAscend(front) && last !in front
    ensures e in front + [last] <==> e in front || e == last
  {
    var log := front + [last];
    assert log[|front|] == last && forall i :: 0 <= i < |front| ==> log[i] == front[i];
  }

  lemma {:induction false} WeightedSumAdd(log: seq<Event>, times: multiset<Event>, e: Event, f: Measure)
    requires IdsAscend(log)
    ensures WeightedSum(log, times + multiset{e}, f) ==
      WeightedSum(log, times, f) + (if e in log then Delta(e, f) else 0)
    decreases |log|
  {
    if |log| > 0 {
      var front, last := log[..|log| - 1], log[|log| - 1];
      assert log == front + [last];
      LastIsNew(front, last, e);
      WeightedSumAdd(front, times, e, f);
      OneMoreCopy(times, e, last, f);
    }
  }

  lemma {:induction false} WeightedSumNone(log: seq<Event>, f: Measure)
    ensures WeightedSum(log, multiset{}, f) == 0
    decreases |log|
  {
    if |log| > 0 {
      WeightedSumNone(log[..|log| - 1], f);
    }
  }

  /** A projector's signed total is the sum over the log of delta times multiplicity. */
  lemma {:induction false} SignedIsWeighted(log: seq<Event>, applied: seq<Event>, f: Measure)
    requires IdsAscend(log) && forall e :: e in applied ==> e in log
    ensures Signed(applied, f) == WeightedSum(log, multiset(applied), f)
    decreases |applied|
  {
    if |applied| == 0 {
      WeightedSumNone(log, f);
    } else {
      var front, e := applied[..|applied| - 1], applied[|applied| - 1];
      SignedIsWeighted(log, front, f);
      WeightedSumAdd(log, multiset(front), e, f);
      assert applied == front + [e];
    }
  }

  lemma ReadModelsAreWeightedSums(p: Progress, log: seq<Event>, b: int, k: SummaryKey, a: BalanceKey)
    requires LogOk(log) && AtLeastOnce(p, log, b)
    ensures SummaryCell(SummaryTable(p.bySummary), k) ==
      Bucket(WeightedSum(log, multiset(p.bySummary), AmountIn(k)), WeightedSum(log, multiset(p.bySummary), CountIn(k)))
    ensures BalanceCell(BalanceTable(p.byBalance), a) == WeightedSum(log, multiset(p.byBalance), BalanceIn(a))
    ensures forall e :: multiset(p.byBalance)[e] <= multiset(p.bySummary)[e]
  {
    SummaryCellIsSigned(p.bySummary, k);
    SignedIsWeighted(log, p.bySummary, AmountIn(k));
    SignedIsWeighted(log, p.bySummary, CountIn(k));
    BalanceCellIsSigned(p.byBalance, a);
    SignedIsWeighted(log, p.byBalance, BalanceIn(a));
  }

  // ------------------------------------------------------------------ exactly once

  function IdAt(log: seq<Event>, n: nat): int
    requires n <= |log|
  {
    if n == 0 then 0 else log[n - 1].id
  }

  /** Both processors applied exactly the first n events, once each and in order, and the cursor says so. */
  predicate InStep(p: Progress, log: seq<Event>, n: nat)
  {
    n <= |log| && p == Progress(IdAt(log, n), log[..n], log[..n])
  }

  /** Some call on the batch fails. */
  predicate BatchFails(es: seq<Event>, faults: Faults)
  {
    exists i :: 0 <= i < |es| && (!ProcessOk(es[i], faults.process(i, 0)) || !ProcessOk(es[i], faults.process(i, 1)))
  }

  /**
   Work was done that the cursor does not record: the first call succeeded, and then a call or the cursor write
   failed.
   */
  predicate Wasted(p: Progress, log: seq<Event>, b: int, faults: Faults)
  {
    var es := ListSince(log, p.cursor, b);
    && !faults.get && !faults.list && |es| > 0
    && ProcessOk(es[0], faults.process(0, 0))
    && (BatchFails(es, faults) || faults.put)
  }

  lemma CutInStep(log: seq<Event>, n: nat)
    requires LogOk(log) && n <= |log|
    ensures Cut(log, IdAt(log, n)) == n
  {
    CutSplits(log, IdAt(log, n));
  }

  lemma {:induction false} BatchOkIff(p: Progress, es: seq<Event>, faults: Faults)
    ensures ApplyBatch(p, es, faults).ok <==> !BatchFails(es, faults)
    decreases |es|
  {
    if |es| > 0 {
      var k := |es| - 1;
      BatchOkIff(p, es[..k], faults);
      assert forall i :: 0 <= i < k ==> es[..k][i] == es[i];
      if BatchFails(es, faults) && !BatchFails(es[..k], faults) {
        assert !ProcessOk(es[k], faults.process(k, 0)) || !ProcessOk(es[k], faults.process(k, 1));
      }
    }
  }

  /** A state in step shows its position. */
  lemma InStepPosition(p: Progress, log: seq<Event>, k: nat)
    requires LogOk(log) && InStep(p, log, k)
    ensures k == |p.bySummary| == Cut(log, p.cursor)
  {
    CutInStep(log, k);
  }

  lemma WindowFromStep(log: seq<Event>, n: nat, b: int)
    requires LogOk(log) && b > 0 && n <= |log|
    ensures var es, hi := ListSince(log, IdAt(log, n), b), Min(n + b, |log|);
      es == log[n..hi] && (n < hi ==> MaxId(es) == IdAt(log, hi) > 0)
  {
    CutInStep(log, n);
    ListSinceIsWindow(log, IdAt(log, n), b);
    if n < |log| {
      MaxIdOfWindow(log, n, Min(n + b, |log|));
    }
  }

  lemma JoinSlices(log: seq<Event>, n: nat, hi: nat, r: nat)
    requires n <= hi <= |log| && n + r <= hi
    ensures log[..n] + log[n..hi][..r] == log[..n + r]
  {
  }

  /** A batch from a state in step, in terms of the two prefixes it applies. */
  lemma BatchFromStep(p: Progress, log: seq<Event>, n: nat, hi: nat, faults: Faults) returns (r: nat, s: nat)
    requires InStep(p, log, n) && n <= hi <= |log|
    ensures s <= r <= s + 1 && n + r <= hi
    ensures ApplyBatch(p, log[n..hi], faults) == Batch(Progress(p.cursor, log[..n + r], log[..n + s]), n + s == hi)
    ensures n + s == hi <==> !BatchFails(log[n..hi], faults)
    ensures n < hi && ProcessOk(log[n], faults.process(0, 0)) <==> r > 0
  {
    var es := log[n..hi];
    r, s := BatchShape(p, es, faults);
    BatchOkIff(p, es, faults);
    JoinSlices(log, n, hi, r);
    JoinSlices(log, n, hi, s);
  }

  /** One round from a state in step: where it ends without failures, and exactly when it is still in step. */
  lemma RoundInStep(p: Progress, log: seq<Event>, n: nat, b: int, faults: Faults)
    requires LogOk(log) && b > 0 && InStep(p, log, n)
    ensures var q := Round(p, log, b, faults);
      && ((exists k :: InStep(q, log, k)) <==> !Wasted(p, log, b, faults))
      && (!faults.get && !faults.list && !faults.put && !BatchFails(ListSince(log, p.cursor, b), faults)
          ==> InStep(q, log, Min(n + b, |log|)))
  {
    var q := Round(p, log, b, faults);
    var es, hi := ListSince(log, p.cursor, b), Min(n + b, |log|);
    WindowFromStep(log, n, b);
    var r, s := BatchFromStep(p, log, n, hi, faults);
    if faults.get || faults.list || es == [] || r == 0 {
      assert InStep(q, log, n);
      assert !Wasted(p, log, b, faults);
    } else if n + s == hi && !faults.put {
      assert InStep(q, log, hi);
      assert !Wasted(p, log, b, faults);
    } else {
      assert q.cursor == p.cursor && q.bySummary == log[..n + r];
      assert Wasted(p, log, b, faults);
      InStepPosition(p, log, n);
      forall k | InStep(q, log, k) ensures false {
        InStepPosition(q, log, k);
      }
    }
  }

  /** A round that starts and whose first call succeeds applies the first listed event. */
  lemma RoundAppliesFirst(p: Progress, log: seq<Event>, b: int, faults: Faults) returns (m: nat)
    requires b > 0 && !faults.get && !faults.list
    requires |ListSince(log, p.cursor, b)| > 0 && ProcessOk(ListSince(log, p.cursor, b)[0], faults.process(0, 0))
    ensures 0 < m <= |ListSince(log, p.cursor, b)|
    ensures Round(p, log, b, faults).bySummary == p.bySummary + ListSince(log, p.cursor, b)[..m]
    ensures Wasted(p, log, b, faults) ==> Round(p, log, b, faults).cursor == p.cursor
  {
    BatchOkIff(p, ListSince(log, p.cursor, b), faults);
    var n: nat;
    m, n := BatchShape(p, ListSince(log, p.cursor, b), faults);
  }

  lemma TwoRoundsCount(before: seq<Event>, es: seq<Event>, m: nat, n: nat)
    requires 0 < m <= |es| && 0 < n <= |es|
    ensures multiset(before + es[..m] + es[..n])[es[0]] >= 2
  {
    FirstOfPrefix(es, m);
    FirstOfPrefix(es, n);
    assert multiset(before + es[..m] + es[..n]) == multiset(before) + multiset(es[..m]) + multiset(es[..n]);
  }

  lemma FirstOfPrefix(es: seq<Event>, m: nat)
    requires 0 < m <= |es|
    ensures multiset(es[..m])[es[0]] >= 1
  {
    assert es[..m] == [es[0]] + es[1..m];
  }

  /**
   The projectors are not idempotent: after a wasted round the next round applies the same first
   event again, so its contribution is in the summary twice.
   */
  lemma WastedRoundCountsTwice(p: Progress, log: seq<Event>, n: nat, b: int, first: Faults, second: Faults)
    requires LogOk(log) && b > 0 && InStep(p, log, n) && n < |log| && Wasted(p, log, b, first)
    requires !second.get && !second.list && ProcessOk(log[n], second.process(0, 0))
    ensures multiset(Round(Round(p, log, b, first), log, b, second).bySummary)[log[n]] >= 2
  {
    WindowFromStep(log, n, b);
    var es, q := ListSince(log, p.cursor, b), Round(p, log, b, first);
    assert es[0] == log[n];
    var m := RoundAppliesFirst(p, log, b, first);
    var m' := RoundAppliesFirst(q, log, b, second);
    TwoRoundsCount(p.bySummary, es, m, m');
  }

  // ------------------------------------------------------------------ without failures

  predicate AllDecodable(log: seq<Event>)
  {
    forall i :: 0 <= i < |log| ==> Decodable(log[i])
  }

  /** k rounds without failures over a log that stands still. */
  function Drain(p: Progress, log: seq<Event>, b: int, k: nat): Progress
  {
    if k == 0 then p else Round(Drain(p, log, b, k - 1), log, b, NO_FAULTS)
  }

  ghost predicate NoCallFails(faults: Faults)
  {
    !faults.get && !faults.list && !faults.put && forall i, p :: !faults.process(i, p)
  }

  lemma NothingFails(log: seq<Event>, since: int, b: int, faults: Faults)
    requires LogOk(log) && b > 0 && AllDecodable(log) && NoCallFails(faults)
    ensures !BatchFails(ListSince(log, since, b), faults)
  {
    ListSinceIsWindow(log, since, b);
  }

  /** One round without failures from a state in step. */
  lemma QuietRound(p: Progress, log: seq<Event>, n: nat, b: int)
    requires LogOk(log) && b > 0 && AllDecodable(log) && InStep(p, log, n)
    ensures InStep(Round(p, log, b, NO_FAULTS), log, Min(n + b, |log|))
  {
    NothingFails(log, p.cursor, b, NO_FAULTS);
    RoundInStep(p, log, n, b, NO_FAULTS);
  }

  lemma {:induction false} DrainInStep(log: seq<Event>, b: int, k: nat)
    requires LogOk(log) && b > 0 && AllDecodable(log)
    ensures InStep(Drain(START, log, b, k), log, Min(k * b, |log|))
    decreases k
  {
    if k > 0 {
      DrainInStep(log, b, k - 1);
      NextRound(k, b, |log|);
      var n: nat := Min((k - 1) * b, |log|);
      QuietRound(Drain(START, log, b, k - 1), log, n, b);
    }
  }

  /** The log is drained exactly from round ceil(n / b) on, and what it is drained to does not depend on b. */
  lemma DrainedExactlyAfter(log: seq<Event>, b: int, k: nat)
    requires LogOk(log) && b > 0 && AllDecodable(log)
    ensures Drain(START, log, b, k) == Progress(IdAt(log, |log|), log, log) <==> k >= CeilDiv(|log|, b)
  {
    DrainInStep(log, b, k);
    CeilDivIff(|log|, b, k);
    var n := Min(k * b, |log|);
    assert log[..|log|] == log;
    assert |log[..n]| == n;
  }

  /** Batch-size independence. */
  lemma BatchSizeDoesNotMatter(log: seq<Event>, b: int, c: int, k: nat, l: nat)
    requires LogOk(log) && b > 0 && c > 0 && AllDecodable(log)
    requires k >= CeilDiv(|log|, b) && l >= CeilDiv(|log|, c)
    ensures Drain(START, log, b, k) == Drain(START, log, c, l)
  {
    DrainedExactlyAfter(log, b, k);
    DrainedExactlyAfter(log, c, l);
  }

  /** Progress: a round without failures that finds events moves the cursor up. */
  lemma CursorAdvances(p: Progress, log: seq<Event>, b: int)
    requires LogOk(log) && b > 0 && AllDecodable(log) && |ListSince(log, p.cursor, b)| > 0
    ensures Round(p, log, b, NO_FAULTS).cursor > p.cursor
  {
    var es := ListSince(log, p.cursor, b);
    NothingFails(log, p.cursor, b, NO_FAULTS);
    BatchOkIff(p, es, NO_FAULTS);
    ListSinceIsWindow(log, p.cursor, b);
    WholeBatchEnds(log, p.cursor, b);
  }
}
