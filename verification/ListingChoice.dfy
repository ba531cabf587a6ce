/**
 What the event query is free to choose. It orders by version alone, so when the limit cuts between
 events of one version, which of them are returned is open. Here is exactly which events every answer
 holds, and when the answer's event set is fixed, as the comment on SyncUserTransactions assumes.
 */
module ListingChoice {
  import opened Ledger
  import opened SheetSync
  import opened Sorting
  import opened Wrappers

  // ------------------------------------------------------------------ counting

  ghost function Members(es: seq<Event>): set<Event>
  {
    set e | e in es
  }

  lemma {:induction false} DistinctCount(es: seq<Event>)
    ensures |Members(es)| <= |es| && (Distinct(es) ==> |Members(es)| == |es|)
    decreases |es|
  {
    if |es| > 0 {
      var front, e := es[..|es| - 1], es[|es| - 1];
      DistinctCount(front);
      assert es == front + [e];
      assert Members(es) == Members(front) + {e};
    }
  }

  lemma SubsetCount(a: set<Event>, b: set<Event>)
    requires a <= b
    ensures |a| <= |b| && (|a| == |b| ==> a == b)
  {
    assert b == a + (b - a);
    assert |b| == |a| + |b - a|;
  }

  ghost function SelectedSet(log: seq<Event>, user: string, since: int): set<Event>
  {
    set e | e in log && Selected(e, user, since)
  }

  /** When no more than `limit` events are selected, the listing holds all of them. */
  lemma ListingIsComplete(log: seq<Event>, user: string, since: int, limit: nat, out: seq<Event>)
    requires Listing(log, user, since, limit, out) && |SelectedSet(log, user, since)| <= limit
    ensures Members(out) == SelectedSet(log, user, since)
  {
    DistinctCount(out);
    SubsetCount(Members(out), SelectedSet(log, user, since));
    if e :| e in SelectedSet(log, user, since) && e !in out {
      assert |out| == limit;
    }
  }

  // ------------------------------------------------------------------ which events every listing holds

  ghost function UpTo(s: set<Event>, v: int): set<Event>
  {
    set e | e in s && e.version <= v
  }

  /** At most `limit` selected events have a version up to v. */
  ghost predicate Fits(log: seq<Event>, user: string, since: int, limit: nat, v: int)
  {
    |UpTo(SelectedSet(log, user, since), v)| <= limit
  }

  ghost predicate AlwaysListed(log: seq<Event>, user: string, since: int, limit: nat, d: Event)
  {
    forall out :: Listing(log, user, since, limit, out) ==> d in out
  }

  lemma FittingIsListed(log: seq<Event>, user: string, since: int, limit: nat, d: Event, out: seq<Event>)
    requires d in log && Selected(d, user, since) && Fits(log, user, since, limit, d.version)
    requires Listing(log, user, since, limit, out)
    ensures d in out
  {
    var low := UpTo(SelectedSet(log, user, since), d.version);
    if d !in out {
      DistinctCount(out);
      assert Members(out) <= low - {d};
      SubsetCount(Members(out), low - {d});
      assert false;
    }
  }

  lemma VersionsAreOrdered()
    ensures TotalPreorder(NotNewer)
  {
  }

  /** When too many events are as old as d, some listing does without d. */
  lemma OmittingListing(log: seq<Event>, user: string, since: int, limit: nat, d: Event) returns (out: seq<Event>)
    requires d in log && Selected(d, user, since) && !Fits(log, user, since, limit, d.version)
    ensures Listing(log, user, since, limit, out) && d !in out
  {
    var low := UpTo(SelectedSet(log, user, since), d.version);
    VersionsAreOrdered();
    var others := InOrder(low - {d}, NotNewer);
    out := others[..limit];
    forall e | e in out ensures e in low - {d} {
      assert e in others;
    }
    forall e | e in log && Selected(e, user, since) && e !in out
      ensures forall c :: c in out ==> c.version <= e.version
    {
      if e in low - {d} {
        assert e in others;
        var k :| 0 <= k < |others| && others[k] == e;
        assert limit <= k;
      }
    }
  }

  /** An event is in every possible listing if and only if the selected events up to its version fit under the limit. */
  lemma AlwaysListedIff(log: seq<Event>, user: string, since: int, limit: nat, d: Event)
    requires d in log && Selected(d, user, since)
    ensures AlwaysListed(log, user, since, limit, d) <==> Fits(log, user, since, limit, d.version)
  {
    if Fits(log, user, since, limit, d.version) {
      forall out | Listing(log, user, since, limit, out) ensures d in out {
        FittingIsListed(log, user, since, limit, d, out);
      }
    } else {
      var out := OmittingListing(log, user, since, limit, d);
    }
  }

  /** What fits in a longer log fitted before. */
  lemma FitsEarlier(log: seq<Event>, log': seq<Event>, user: string, since: int, limit: nat, v: int)
    requires log <= log' && Fits(log', user, since, limit, v)
    ensures Fits(log, user, since, limit, v)
  {
    var s, s' := UpTo(SelectedSet(log, user, since), v), UpTo(SelectedSet(log', user, since), v);
    forall e | e in s ensures e in s' {
      var k :| 0 <= k < |log| && log[k] == e;
      assert log'[k] == e;
    }
    SubsetCount(s, s');
  }

  // ------------------------------------------------------------------ when the event set is fixed

  ghost predicate SameSetAlways(log: seq<Event>, user: string, since: int, limit: nat)
  {
    forall a, b :: Listing(log, user, since, limit, a) && Listing(log, user, since, limit, b) ==>
      Members(a) == Members(b)
  }

  /** The limit does not cut between two events of one version. */
  ghost predicate CleanCut(s: set<Event>, limit: nat)
  {
    |s| <= limit || exists v :: |UpTo(s, v)| == limit
  }

  /** With a clean cut at version v a listing is exactly the selected events up to v. */
  lemma CutFixesMembers(log: seq<Event>, user: string, since: int, limit: nat, v: int, out: seq<Event>)
    requires Listing(log, user, since, limit, out) && |UpTo(SelectedSet(log, user, since), v)| == limit
    ensures Members(out) == UpTo(SelectedSet(log, user, since), v)
  {
    var s := SelectedSet(log, user, since);
    var low := UpTo(s, v);
    DistinctCount(out);
    if e :| e in low && e !in out {
      assert e in s && |out| == limit;
      assert Members(out) <= low - {e};
      SubsetCount(Members(out), low - {e});
      assert false;
    }
    assert low <= Members(out);
    SubsetCount(low, Members(out));
  }

  /** Two neighbours have changed places. */
  predicate Swapped(a: seq<Event>, b: seq<Event>, n: nat)
  {
    && 0 < n < |a| && |b| == |a| && b[n - 1] == a[n] && b[n] == a[n - 1]
    && forall k :: 0 <= k < |a| && k != n - 1 && k != n ==> b[k] == a[k]
  }

  lemma SwapLosesNothing(a: seq<Event>, b: seq<Event>, n: nat, e: Event)
    requires Swapped(a, b, n) && e in a
    ensures e in b
  {
    var k :| 0 <= k < |a| && a[k] == e;
    assert b[if k == n then n - 1 else if k == n - 1 then n else k] == e;
  }

  lemma SwapKeepsMembers(a: seq<Event>, b: seq<Event>, n: nat)
    requires Swapped(a, b, n)
    ensures Members(a) == Members(b)
  {
    forall e ensures e in a <==> e in b {
      if e in a {
        SwapLosesNothing(a, b, n, e);
      }
      if e in b {
        SwapLosesNothing(b, a, n, e);
      }
    }
  }

  lemma SwapKeepsOrder(all: seq<Event>, n: nat) returns (swapped: seq<Event>)
    requires VersionOrdered(all) && Distinct(all) && 0 < n < |all| && all[n - 1].version == all[n].version
    ensures VersionOrdered(swapped) && Distinct(swapped) && Members(swapped) == Members(all) && |swapped| == |all|
    ensures all[n - 1] in all[..n] && all[n - 1] !in swapped[..n]
  {
    swapped := all[n - 1 := all[n]][n := all[n - 1]];
    SwapKeepsMembers(all, swapped, n);
    assert all[..n][n - 1] == all[n - 1];
  }

  /** A version boundary at the limit is a clean cut. */
  lemma BoundaryIsClean(s: set<Event>, limit: nat, all: seq<Event>)
    requires VersionOrdered(all) && Members(all) == s && Distinct(all) && limit < |all|
    requires limit > 0 ==> all[limit - 1].version < all[limit].version
    ensures CleanCut(s, limit)
  {
    var v := if limit == 0 then all[0].version - 1 else all[limit - 1].version;
    var front := all[..limit];
    forall e ensures e in UpTo(s, v) <==> e in front {
      if e in UpTo(s, v) {
        assert e in Members(all);
        var k :| 0 <= k < |all| && all[k] == e;
        assert k < limit;
        assert front[k] == e;
      }
      if e in front {
        var k :| 0 <= k < limit && front[k] == e;
        assert all[k] in Members(all);
      }
    }
    DistinctCount(front);
    assert UpTo(s, v) == Members(front);
  }

  /**
   The event set of a job is fixed by sinceVersion if and only if everything selected fits under the
   limit or the limit falls on a version boundary.
   */
  lemma SameSetIff(log: seq<Event>, user: string, since: int, limit: nat)
    ensures SameSetAlways(log, user, since, limit) <==> CleanCut(SelectedSet(log, user, since), limit)
  {
    var s := SelectedSet(log, user, since);
    if |s| <= limit {
      forall a | Listing(log, user, since, limit, a) ensures Members(a) == s {
        ListingIsComplete(log, user, since, limit, a);
      }
    } else if v :| |UpTo(s, v)| == limit {
      forall a | Listing(log, user, since, limit, a) ensures Members(a) == UpTo(s, v) {
        CutFixesMembers(log, user, since, limit, v, a);
      }
    } else {
      UncleanCutLeavesChoice(log, user, since, limit);
    }
  }

  lemma FrontIsPossible(log: seq<Event>, user: string, since: int, limit: nat, all: seq<Event>)
    requires VersionOrdered(all) && Distinct(all) && Members(all) == SelectedSet(log, user, since) && limit < |all|
    ensures Listing(log, user, since, limit, all[..limit])
  {
    assert forall e :: e in all <==> e in Members(all);
    FrontIsListing(log, user, since, limit, all);
  }

  /** With two events of one version at the limit, both orders of them are possible. */
  lemma SwapLeavesChoice(log: seq<Event>, user: string, since: int, limit: nat, all: seq<Event>)
    requires VersionOrdered(all) && Distinct(all) && Members(all) == SelectedSet(log, user, since)
    requires 0 < limit < |all| && all[limit - 1].version == all[limit].version
    ensures !SameSetAlways(log, user, since, limit)
  {
    var swapped := SwapKeepsOrder(all, limit);
    var a, b := all[..limit], swapped[..limit];
    assert Listing(log, user, since, limit, a) by { FrontIsPossible(log, user, since, limit, all); }
    assert Listing(log, user, since, limit, b) by { FrontIsPossible(log, user, since, limit, swapped); }
    assert all[limit - 1] in Members(a) && all[limit - 1] !in Members(b);
  }

  lemma UncleanCutLeavesChoice(log: seq<Event>, user: string, since: int, limit: nat)
    requires !CleanCut(SelectedSet(log, user, since), limit)
    ensures !SameSetAlways(log, user, since, limit)
  {
    VersionsAreOrdered();
    var all := InOrder(SelectedSet(log, user, since), NotNewer);
    assert VersionOrdered(all) && Members(all) == SelectedSet(log, user, since);
    if limit == 0 || all[limit - 1].version < all[limit].version {
      BoundaryIsClean(SelectedSet(log, user, since), limit, all);
      assert false;
    }
    SwapLeavesChoice(log, user, since, limit, all);
  }

  // ------------------------------------------------------------------ a user with many transactions

  const PLAIN := Content("acc", 100, "IDR", "expense", None, None, Instant(0, 0), "{}", "app")

  /** n different ids. */
  function Name(n: nat): (s: string)
    ensures |s| == n
  {
    seq(n, _ => 'x')
  }

  predicate CreatedFirst(e: Event, i: nat)
  {
    e.version == 1 && e.userId == "u" && e.entityType == "transaction" && e.entityId == Name(i)
  }

  /** n creates by one user give n events, all of version 1. */
  ghost predicate HoldsCreates(w: World, n: nat)
  {
    && |w.store.log| == n && (forall id :: id in w.store.table ==> |id| < n)
    && forall i :: 0 <= i < n ==> CreatedFirst(w.store.log[i], i)
  }

  function Create(n: nat): Action
  {
    DoCreate(CreateInput("u", PLAIN), Name(n), 0, NoFault, true)
  }

  function Creates(n: nat): (actions: seq<Action>)
    ensures |actions| == n
  {
    if n == 0 then [] else Creates(n - 1) + [Create(n - 1)]
  }

  function AfterCreates(n: nat): World
  {
    if n == 0 then INITIAL else Next(AfterCreates(n - 1), Create(n - 1))
  }

  lemma {:induction false} RunCreates(n: nat)
    ensures Run(INITIAL, Creates(n)) == AfterCreates(n)
    decreases n
  {
    if n > 0 {
      RunCreates(n - 1);
      assert Creates(n)[..n - 1] == Creates(n - 1);
    }
  }

  lemma NextCreate(n: nat)
    requires n > 0 && HoldsCreates(AfterCreates(n - 1), n - 1)
    ensures HoldsCreates(AfterCreates(n), n)
  {
    OneMoreCreate(AfterCreates(n - 1), n - 1);
  }

  lemma NoCreates()
    ensures HoldsCreates(AfterCreates(0), 0)
  {
  }

  lemma {:induction false} CreatesLog(n: nat)
    ensures HoldsCreates(AfterCreates(n), n)
    decreases n
  {
    if n > 0 {
      CreatesLog(n - 1);
      NextCreate(n);
    } else {
      NoCreates();
    }
  }

  lemma OneMoreCreate(w: World, n: nat)
    requires HoldsCreates(w, n)
    ensures HoldsCreates(Next(w, Create(n)), n + 1)
  {
  }

  /** All n events of n creates are selected by the first job, and all have version 1. */
  lemma CreatesAreSelected(n: nat)
    ensures var s := SelectedSet(Run(INITIAL, Creates(n)).store.log, "u", 0);
      |s| == n && forall v :: UpTo(s, v) == if v >= 1 then s else {}
  {
    var log := Run(INITIAL, Creates(n)).store.log;
    RunCreates(n);
    CreatesLog(n);
    forall i, j | 0 <= i < j < n ensures log[i] != log[j] {
      assert CreatedFirst(log[i], i) && CreatedFirst(log[j], j);
    }
    DistinctCount(log);
    assert SelectedSet(log, "u", 0) == Members(log);
  }

  /**
   The comment on the query does not hold of the ledger: after more creates by one user than the limit,
   the limit cuts between events of version 1, and two answers to the same job differ.
   */
  lemma ManyCreatesLeaveChoice(n: nat, limit: nat)
    requires 0 < limit < n
    ensures !SameSetAlways(Run(INITIAL, Creates(n)).store.log, "u", 0, limit)
  {
    CreatesAreSelected(n);
    SameSetIff(Run(INITIAL, Creates(n)).store.log, "u", 0, limit);
  }

  /** What fits, in the columns of the query. */
  lemma FitsIff(log: seq<Event>, user: string, since: int, limit: nat, v: int)
    ensures Fits(log, user, since, limit, v) <==>
      |set e | e in log && e.userId == user && e.entityType == "transaction" && since < e.version <= v| <= limit
  {
    assert UpTo(SelectedSet(log, user, since), v) ==
      set e | e in log && e.userId == user && e.entityType == "transaction" && since < e.version <= v;
  }
}
