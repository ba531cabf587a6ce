/** Laws of the merge: splitting the remote rows, idempotence, and exactly when their order matters. */
module MergeAlgebra {
  import opened Wrappers
  import opened SheetRows
  import opened Ordering
  import opened Merge

  // ------------------------------------------------------------------ one remote row per id

  /** Id by id, the second map's row wins only by beating the first map's. */
  function Join(m: RowMap, n: RowMap): RowMap
  {
    map id | id in m.Keys + n.Keys ::
      if id !in n then m[id] else if id !in m || Beats(n[id], m[id]) then n[id] else m[id]
  }

  /** A list of rows without repeated ids that holds exactly the rows of a map, in any order. */
  ghost predicate Enumerates(rows: seq<SheetRow>, n: RowMap)
  {
    && (forall i, j :: 0 <= i < j < |rows| ==> rows[i].rowId != rows[j].rowId)
    && (forall i :: 0 <= i < |rows| ==> rows[i].rowId in n && n[rows[i].rowId] == rows[i])
    && (forall id :: id in n ==> HasRow(rows, id))
  }

  lemma EnumeratesFront(front: seq<SheetRow>, r: SheetRow, n: RowMap)
    requires Enumerates(front + [r], n)
    ensures r.rowId in n && n[r.rowId] == r && Enumerates(front, n - {r.rowId})
  {
    var rows := front + [r];
    assert rows[|front|] == r;
    assert forall i :: 0 <= i < |front| ==> rows[i] == front[i];
    forall id | id in n - {r.rowId} ensures HasRow(front, id) {
      HasRowAppend(front, r, id);
    }
  }

  lemma JoinOneMore(m: RowMap, n: RowMap, r: SheetRow)
    requires r.rowId in n && n[r.rowId] == r
    ensures Consider(Join(m, n - {r.rowId}), r) == Join(m, n)
  {
  }

  lemma {:induction false} AddRemoteIsJoin(m: RowMap, rows: seq<SheetRow>, n: RowMap)
    requires Enumerates(rows, n)
    ensures AddRemote(m, rows) == Join(m, n)
    decreases |rows|
  {
    if |rows| == 0 {
      assert forall id :: !HasRow(rows, id);
      assert n.Keys == {};
      assert Join(m, n) == m;
    } else {
      var front, r := rows[..|rows| - 1], rows[|rows| - 1];
      assert rows == front + [r];
      EnumeratesFront(front, r, n);
      AddRemoteIsJoin(m, front, n - {r.rowId});
      JoinOneMore(m, n, r);
    }
  }

  lemma {:induction false} LastLocalOfEnumeration(rows: seq<SheetRow>, n: RowMap)
    requires Enumerates(rows, n)
    ensures LastLocal(rows) == n
    decreases |rows|
  {
    LastLocalMeans(rows);
    forall id | id in n ensures id in LastLocal(rows) && LastLocal(rows)[id] == n[id] {
      assert HasRow(rows, id);
      var i :| 0 <= i < |rows| && rows[i].rowId == id;
      assert LastAt(rows, i);
    }
    forall id | id in LastLocal(rows) ensures id in n {
      assert HasRow(rows, id);
    }
  }

  lemma RowsEnumerate(n: RowMap)
    requires Keyed(n)
    ensures Enumerates(Rows(n), n)
  {
    var ids, rows := KeysInOrder(n.Keys), Rows(n);
    KeysInOrderSorted(n.Keys);
    forall i, j | 0 <= i < j < |rows| ensures rows[i].rowId != rows[j].rowId {
      LessTotal(ids[i], ids[j]);
    }
    forall id | id in n ensures HasRow(rows, id) {
      var i :| 0 <= i < |ids| && ids[i] == id;
      assert rows[i].rowId == id;
    }
  }

  // ------------------------------------------------------------------ algebra

  lemma {:induction false} AddRemoteSplits(m: RowMap, r1: seq<SheetRow>, r2: seq<SheetRow>)
    ensures AddRemote(m, r1 + r2) == AddRemote(AddRemote(m, r1), r2)
    decreases |r2|
  {
    if |r2| == 0 {
      assert r1 + r2 == r1;
    } else {
      assert (r1 + r2)[..|r1 + r2| - 1] == r1 + r2[..|r2| - 1];
      AddRemoteSplits(m, r1, r2[..|r2| - 1]);
    }
  }

  /** Merging remote rows in two batches is merging them at once. */
  lemma MergeSplits(local: seq<SheetRow>, r1: seq<SheetRow>, r2: seq<SheetRow>)
    ensures Merged(local, r1 + r2) == Merged(Merged(local, r1), r2)
  {
    var m := MergeMap(local, r1);
    MergeKeyed(local, r1);
    RowsEnumerate(m);
    LastLocalOfEnumeration(Rows(m), m);
    AddRemoteSplits(LastLocal(local), r1, r2);
  }

  lemma JoinAbsorbs(l: RowMap, m: RowMap)
    requires l.Keys <= m.Keys && forall id :: id in l ==> m[id] == l[id] || Beats(m[id], l[id])
    ensures Join(l, m) == m
  {
  }

  /** Merging the same local rows into their own merge changes nothing. */
  lemma MergeIsIdempotent(local: seq<SheetRow>, remote: seq<SheetRow>)
    ensures Merged(local, Merged(local, remote)) == Merged(local, remote)
  {
    var l, m := LastLocal(local), MergeMap(local, remote);
    LastLocalMeans(local);
    AddRemoteKeyed(l, remote);
    RowsEnumerate(m);
    AddRemoteIsJoin(l, Rows(m), m);
    forall id | id in l ensures m[id] == l[id] || Beats(m[id], l[id]) {
      AddRemoteMeans(l, remote, id);
    }
    JoinAbsorbs(l, m);
  }

  // ------------------------------------------------------------------ when the order of remote rows matters

  /** Remote row i would be a winner of its id: nothing remote beats it and it beats the local row. */
  predicate Top(m: RowMap, remote: seq<SheetRow>, i: int)
    requires 0 <= i < |remote|
  {
    && (forall j :: 0 <= j < |remote| && remote[j].rowId == remote[i].rowId ==> !Beats(remote[j], remote[i]))
    && (remote[i].rowId in m ==> Beats(remote[i], m[remote[i].rowId]))
  }

  /** Two different remote rows of one id share the top rank. */
  predicate Contested(m: RowMap, remote: seq<SheetRow>)
  {
    exists i, j :: 0 <= i < j < |remote| && remote[i].rowId == remote[j].rowId && remote[i] != remote[j]
      && Top(m, remote, i) && Top(m, remote, j)
  }

  ghost predicate OrderIrrelevant(m: RowMap, remote: seq<SheetRow>)
  {
    forall remote' :: multiset(remote') == multiset(remote) ==> AddRemote(m, remote') == AddRemote(m, remote)
  }

  lemma SameMembers(remote: seq<SheetRow>, remote': seq<SheetRow>, r: SheetRow)
    requires multiset(remote') == multiset(remote)
    ensures r in remote <==> r in remote'
  {
    assert r in multiset(remote) <==> r in multiset(remote');
  }

  /** A row that nothing beats in one order is unbeaten in every order. */
  lemma UnbeatenInAnyOrder(remote: seq<SheetRow>, remote': seq<SheetRow>, id: string, w: SheetRow)
    requires multiset(remote') == multiset(remote)
    requires forall j :: 0 <= j < |remote| && remote[j].rowId == id ==> !Beats(remote[j], w)
    ensures forall j :: 0 <= j < |remote'| && remote'[j].rowId == id ==> !Beats(remote'[j], w)
  {
    forall j | 0 <= j < |remote'| && remote'[j].rowId == id ensures !Beats(remote'[j], w) {
      SameMembers(remote, remote', remote'[j]);
    }
  }

  lemma HasRowInAnyOrder(remote: seq<SheetRow>, remote': seq<SheetRow>, id: string)
    requires multiset(remote') == multiset(remote) && HasRow(remote, id)
    ensures HasRow(remote', id)
  {
    var i :| 0 <= i < |remote| && remote[i].rowId == id;
    SameMembers(remote, remote', remote[i]);
    var j :| 0 <= j < |remote'| && remote'[j] == remote[i];
    assert remote'[j].rowId == id;
  }

  /** Without a contest, two orders agree on the winner of every id. */
  lemma UncontestedWinner(m: RowMap, remote: seq<SheetRow>, remote': seq<SheetRow>, id: string, w: SheetRow,
      w': SheetRow)
    requires Keyed(m) && !Contested(m, remote) && multiset(remote') == multiset(remote)
    requires Winner(m, remote, id, w) && Winner(m, remote', id, w')
    ensures w == w'
  {
    UnbeatenInAnyOrder(remote', remote, id, w');
    if WinsAt(m, remote', id, w') {
      SameMembers(remote, remote', w');
      var j :| 0 <= j < |remote| && remote[j] == w';
      assert Top(m, remote, j);
      if WinsAt(m, remote, id, w) {
        var i :| 0 <= i < |remote| && remote[i] == w && w.rowId == id && (id in m ==> Beats(w, m[id])) &&
          FirstOfRank(remote, i);
        assert Top(m, remote, i);
      }
    }
  }

  lemma UncontestedOrderIrrelevant(m: RowMap, remote: seq<SheetRow>, remote': seq<SheetRow>)
    requires Keyed(m) && !Contested(m, remote) && multiset(remote') == multiset(remote)
    ensures AddRemote(m, remote') == AddRemote(m, remote)
  {
    var a, a' := AddRemote(m, remote), AddRemote(m, remote');
    forall id ensures id in a <==> id in a' {
      AddRemoteMeans(m, remote, id);
      AddRemoteMeans(m, remote', id);
      if HasRow(remote, id) { HasRowInAnyOrder(remote, remote', id); }
      if HasRow(remote', id) { HasRowInAnyOrder(remote', remote, id); }
    }
    forall id | id in a ensures a[id] == a'[id] {
      AddRemoteMeans(m, remote, id);
      AddRemoteMeans(m, remote', id);
      UncontestedWinner(m, remote, remote', id, a[id], a'[id]);
    }
  }

  /** The same rows with row i moved to the front. */
  function ToFront(remote: seq<SheetRow>, i: int): seq<SheetRow>
    requires 0 <= i < |remote|
  {
    [remote[i]] + remote[..i] + remote[i + 1..]
  }

  /** A top row placed first wins. */
  lemma FrontRowWins(m: RowMap, remote: seq<SheetRow>, i: int)
    requires Keyed(m) && 0 <= i < |remote| && Top(m, remote, i)
    ensures multiset(ToFront(remote, i)) == multiset(remote)
    ensures remote[i].rowId in AddRemote(m, ToFront(remote, i))
    ensures AddRemote(m, ToFront(remote, i))[remote[i].rowId] == remote[i]
  {
    var r, moved := remote[i], ToFront(remote, i);
    assert remote == remote[..i] + [r] + remote[i + 1..];
    UnbeatenInAnyOrder(remote, moved, r.rowId, r);
    assert moved[0] == r;
    assert HasRow(moved, r.rowId);
    AddRemoteMeans(m, moved, r.rowId);
    assert FirstOfRank(moved, 0);
    assert WinsAt(m, moved, r.rowId, r);
    WinnerUnique(m, moved, r.rowId, r, AddRemote(m, moved)[r.rowId]);
  }

  /** The order of the remote rows is irrelevant exactly when no id has two different rows at its top rank. */
  lemma OrderIrrelevantIff(m: RowMap, remote: seq<SheetRow>)
    requires Keyed(m)
    ensures OrderIrrelevant(m, remote) <==> !Contested(m, remote)
  {
    if Contested(m, remote) {
      var i, j :| 0 <= i < j < |remote| && remote[i].rowId == remote[j].rowId && remote[i] != remote[j]
        && Top(m, remote, i) && Top(m, remote, j);
      FrontRowWins(m, remote, i);
      FrontRowWins(m, remote, j);
      assert AddRemote(m, ToFront(remote, i)) != AddRemote(m, ToFront(remote, j));
    } else {
      forall remote' | multiset(remote') == multiset(remote) ensures AddRemote(m, remote') == AddRemote(m, remote) {
        UncontestedOrderIrrelevant(m, remote, remote');
      }
    }
  }

  const THIS := SheetRow("2", map["0" := Text("this", None)])
  const THAT := SheetRow("2", map["0" := Text("that", None)])

  /** The merge's output has the map's row of an id. */
  lemma RowOfId(local: seq<SheetRow>, remote: seq<SheetRow>, id: string)
    requires id in MergeMap(local, remote)
    ensures MergeMap(local, remote)[id] in Merged(local, remote)
    ensures forall r :: r in Merged(local, remote) && r.rowId == id ==> r == MergeMap(local, remote)[id]
  {
    var m := MergeMap(local, remote);
    MergeKeyed(local, remote);
    KeysInOrderSorted(m.Keys);
    var i :| 0 <= i < |KeysInOrder(m.Keys)| && KeysInOrder(m.Keys)[i] == id;
    assert Rows(m)[i] == m[id];
  }

  /** Two rows of one id that do not beat each other: the merge keeps whichever comes first. */
  lemma FirstOfTied(r: SheetRow, s: SheetRow)
    requires r.rowId == s.rowId && !Beats(s, r)
    ensures r.rowId in MergeMap([], [r, s]) && MergeMap([], [r, s])[r.rowId] == r
  {
    assert [r, s][..1] == [r] && [r][..0] == [];
    assert AddRemote(map[], [r]) == Consider(AddRemote(map[], []), r);
  }

  lemma TiedIsContested(r: SheetRow, s: SheetRow)
    requires r.rowId == s.rowId && r != s && !Beats(s, r) && !Beats(r, s)
    ensures Contested(map[], [r, s])
  {
    assert Top(map[], [r, s], 0) && Top(map[], [r, s], 1);
  }

  lemma ThisAndThatTie()
    ensures THIS.rowId == THAT.rowId && THIS != THAT && !Beats(THIS, THAT) && !Beats(THAT, THIS)
  {
    assert THIS.payload["0"] != THAT.payload["0"];
  }

  /** Two remote rows of one id without version or time: a contest, and another order gives another merge. */
  lemma OrderCanMatter()
    ensures Contested(map[], [THIS, THAT]) && Merged([], [THIS, THAT]) != Merged([], [THAT, THIS])
  {
    ThisAndThatTie();
    TiedIsContested(THIS, THAT);
    FirstOfTied(THIS, THAT);
    FirstOfTied(THAT, THIS);
    RowOfId([], [THIS, THAT], THIS.rowId);
    RowOfId([], [THAT, THIS], THIS.rowId);
  }
}
