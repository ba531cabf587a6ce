/**
 MergeSheetRows: last-writer-wins merge of local and remote rows by (version, createdAt).
 The loop is proved equal to two folds over a keyed map; the lemmas say what those folds mean.
 */
module Merge {
  import opened Wrappers
  import opened SheetRows
  import opened Ordering
  import opened Sorting

  type RowMap = map<string, SheetRow>

  // ------------------------------------------------------------------ the two loops as folds

  /** First loop: a later local row of an id replaces an earlier one. */
  function LastLocal(local: seq<SheetRow>): RowMap
  {
    if |local| == 0 then map[]
    else LastLocal(local[..|local| - 1])[local[|local| - 1].rowId := local[|local| - 1]]
  }

  function Consider(m: RowMap, r: SheetRow): RowMap
  {
    if r.rowId !in m || Beats(r, m[r.rowId]) then m[r.rowId := r] else m
  }

  /** Second loop: each remote row replaces the current one only if it beats it. */
  function AddRemote(m: RowMap, remote: seq<SheetRow>): RowMap
  {
    if |remote| == 0 then m
    else Consider(AddRemote(m, remote[..|remote| - 1]), remote[|remote| - 1])
  }

  function MergeMap(local: seq<SheetRow>, remote: seq<SheetRow>): RowMap
  {
    AddRemote(LastLocal(local), remote)
  }

  /** The rows of a keyed map in ascending id order. */
  ghost function Rows(m: RowMap): (rs: seq<SheetRow>)
    ensures |rs| == |KeysInOrder(m.Keys)|
    ensures forall i :: 0 <= i < |rs| ==> KeysInOrder(m.Keys)[i] in m && rs[i] == m[KeysInOrder(m.Keys)[i]]
  {
    var ids := KeysInOrder(m.Keys);
    KeysInOrderSorted(m.Keys);
    assert forall i :: 0 <= i < |ids| ==> ids[i] in ids;
    seq(|ids|, i requires 0 <= i < |ids| => m[ids[i]])
  }

  ghost function Merged(local: seq<SheetRow>, remote: seq<SheetRow>): seq<SheetRow>
  {
    Rows(MergeMap(local, remote))
  }

  lemma DistinctSortedIsStrict(ids: seq<string>, sorted: seq<string>)
    requires forall i, j :: 0 <= i < j < |ids| ==> ids[i] != ids[j]
    requires SortedBy(sorted, Leq) && multiset(sorted) == multiset(ids)
    ensures StrictlySorted(sorted)
    ensures forall k :: k in ids <==> k in sorted
  {
    SameContents(ids, sorted);
    StaysDistinct(ids, sorted);
  }

  /** The two loops that fill the map. */
  method MergeById(local: seq<SheetRow>, remote: seq<SheetRow>) returns (byId: RowMap)
    ensures byId == MergeMap(local, remote)
  {
    byId := map[];
    for i := 0 to |local|
      invariant byId == LastLocal(local[..i])
    {
      assert local[..i + 1][..i] == local[..i];
      byId := byId[local[i].rowId := local[i]];
    }
    assert local[..|local|] == local;
    for i := 0 to |remote|
      invariant byId == AddRemote(LastLocal(local), remote[..i])
    {
      assert remote[..i + 1][..i] == remote[..i];
      var r := remote[i];
      if r.rowId !in byId {
        byId := byId[r.rowId := r];
      } else {
        var vCur := ExtractVersion(byId[r.rowId].payload);
        var vNew := ExtractVersion(r.payload);
        if vNew > vCur {
          byId := byId[r.rowId := r];
        } else if vNew == vCur {
          if ExtractCreatedAt(r.payload) > ExtractCreatedAt(byId[r.rowId].payload) {
            byId := byId[r.rowId := r];
          }
        }
      }
    }
    assert remote[..|remote|] == remote;
  }

  /** The ids of a map, sorted. */
  method SortedIds(byId: RowMap) returns (ids: seq<string>)
    ensures ids == KeysInOrder(byId.Keys) && StrictlySorted(ids)
  {
    var keys := KeysOf(byId);
    LeqIsTotalPreorder();
    ids := Sort(keys, Leq);
    DistinctSortedIsStrict(keys, ids);
    SortedIsKeysInOrder(ids, byId.Keys);
  }

  method MergeSheetRows(local: seq<SheetRow>, remote: seq<SheetRow>) returns (out: seq<SheetRow>)
    ensures out == Merged(local, remote)
  {
    var byId := MergeById(local, remote);
    var ids := SortedIds(byId);
    KeysInOrderSorted(byId.Keys);
    out := [];
    for i := 0 to |ids|
      invariant |out| == i && out == Rows(byId)[..i]
    {
      assert ids[i] in ids;
      out := out + [byId[ids[i]]];
    }
  }

  // ------------------------------------------------------------------ what the folds mean, id by id

  /** Every row sits under its own id. */
  predicate Keyed(m: RowMap)
  {
    forall id :: id in m ==> m[id].rowId == id
  }

  predicate HasRow(rows: seq<SheetRow>, id: string)
  {
    exists i :: 0 <= i < |rows| && rows[i].rowId == id
  }

  /** Index i holds the last row of its id. */
  predicate LastAt(rows: seq<SheetRow>, i: int)
  {
    0 <= i < |rows| && forall j :: i < j < |rows| ==> rows[j].rowId != rows[i].rowId
  }

  lemma {:induction false} LastLocalKeys(local: seq<SheetRow>)
    ensures Keyed(LastLocal(local))
    ensures forall id :: id in LastLocal(local) <==> HasRow(local, id)
    decreases |local|
  {
    if |local| > 0 {
      var front, last := local[..|local| - 1], local[|local| - 1];
      LastLocalKeys(front);
      assert local == front + [last];
      forall id ensures id in LastLocal(local) <==> HasRow(local, id) {
        HasRowAppend(front, last, id);
      }
    }
  }

  lemma {:induction false} LastLocalAt(local: seq<SheetRow>, i: int)
    requires LastAt(local, i)
    ensures local[i].rowId in LastLocal(local) && LastLocal(local)[local[i].rowId] == local[i]
    decreases |local|
  {
    if i < |local| - 1 {
      var front := local[..|local| - 1];
      assert LastAt(front, i);
      LastLocalAt(front, i);
    }
  }

  /** The first loop leaves exactly the last local row of every id. */
  lemma LastLocalMeans(local: seq<SheetRow>)
    ensures Keyed(LastLocal(local))
    ensures forall id :: id in LastLocal(local) <==> HasRow(local, id)
    ensures forall i :: LastAt(local, i) ==>
      local[i].rowId in LastLocal(local) && LastLocal(local)[local[i].rowId] == local[i]
  {
    LastLocalKeys(local);
    forall i | LastAt(local, i)
      ensures local[i].rowId in LastLocal(local) && LastLocal(local)[local[i].rowId] == local[i]
    {
      LastLocalAt(local, i);
    }
  }

  lemma {:induction false} AddRemoteKeyed(m: RowMap, remote: seq<SheetRow>)
    requires Keyed(m)
    ensures Keyed(AddRemote(m, remote)) && m.Keys <= AddRemote(m, remote).Keys
    decreases |remote|
  {
    if |remote| > 0 {
      AddRemoteKeyed(m, remote[..|remote| - 1]);
    }
  }

  lemma MergeKeyed(local: seq<SheetRow>, remote: seq<SheetRow>)
    ensures Keyed(MergeMap(local, remote))
  {
    LastLocalMeans(local);
    AddRemoteKeyed(LastLocal(local), remote);
  }

  /**
   Row w is what an id must end with, when the map starts as m: nothing remote beats it, and it is
   the starting row, or the first remote row of its rank and above the starting row.
   */
  predicate Winner(m: RowMap, remote: seq<SheetRow>, id: string, w: SheetRow)
  {
    && (forall j :: 0 <= j < |remote| && remote[j].rowId == id ==> !Beats(remote[j], w))
    && ((id in m && w == m[id]) || WinsAt(m, remote, id, w))
  }

  predicate WinsAt(m: RowMap, remote: seq<SheetRow>, id: string, w: SheetRow)
  {
    exists i :: 0 <= i < |remote| && remote[i] == w && w.rowId == id && (id in m ==> Beats(w, m[id])) &&
      FirstOfRank(remote, i)
  }

  predicate FirstOfRank(remote: seq<SheetRow>, i: int)
    requires 0 <= i < |remote|
  {
    forall j :: 0 <= j < i && remote[j].rowId == remote[i].rowId ==> Beats(remote[i], remote[j])
  }

  lemma HasRowAppend(front: seq<SheetRow>, r: SheetRow, id: string)
    ensures HasRow(front + [r], id) <==> HasRow(front, id) || r.rowId == id
  {
    var all := front + [r];
    assert all[|front|] == r;
    if HasRow(front, id) {
      var i :| 0 <= i < |front| && front[i].rowId == id;
      assert all[i].rowId == id;
    }
  }

  /** A row that is not beaten by the next remote row keeps its win. */
  lemma WinnerStays(m: RowMap, front: seq<SheetRow>, r: SheetRow, id: string, w: SheetRow)
    requires Winner(m, front, id, w) && (r.rowId == id ==> !Beats(r, w))
    ensures Winner(m, front + [r], id, w)
  {
    var all := front + [r];
    if WinsAt(m, front, id, w) {
      var i :| 0 <= i < |front| && front[i] == w && w.rowId == id && (id in m ==> Beats(w, m[id])) &&
        FirstOfRank(front, i);
      assert all[i] == w && FirstOfRank(all, i);
    }
  }

  /** A row that beats the winner so far, or is the first of its id, is the new winner. */
  lemma NewWinner(m: RowMap, front: seq<SheetRow>, r: SheetRow)
    requires (r.rowId !in m && !HasRow(front, r.rowId)) || (exists w :: Winner(m, front, r.rowId, w) && Beats(r, w))
    ensures Winner(m, front + [r], r.rowId, r)
  {
    var all := front + [r];
    assert forall j :: 0 <= j < |front| && front[j].rowId == r.rowId ==> HasRow(front, r.rowId);
    assert forall j :: 0 <= j < |front| ==> all[j] == front[j];
    assert FirstOfRank(all, |front|);
    assert all[|front|] == r;
  }

  lemma {:induction false} AddRemoteMeans(m: RowMap, remote: seq<SheetRow>, id: string)
    requires Keyed(m)
    ensures id in AddRemote(m, remote) <==> id in m || HasRow(remote, id)
    ensures id in AddRemote(m, remote) ==> Winner(m, remote, id, AddRemote(m, remote)[id])
    decreases |remote|
  {
    if |remote| > 0 {
      var front, r := remote[..|remote| - 1], remote[|remote| - 1];
      assert remote == front + [r];
      AddRemoteMeans(m, front, id);
      HasRowAppend(front, r, id);
      var before := AddRemote(m, front);
      if r.rowId == id && (id !in before || Beats(r, before[id])) {
        NewWinner(m, front, r);
      } else if id in before {
        WinnerStays(m, front, r, id, before[id]);
      }
    }
  }

  /** At most one row can be the winner, so `Winner` determines the merge. */
  lemma WinnerUnique(m: RowMap, remote: seq<SheetRow>, id: string, v: SheetRow, w: SheetRow)
    requires Winner(m, remote, id, v) && Winner(m, remote, id, w)
    ensures v == w
  {
    if WinsAt(m, remote, id, v) && WinsAt(m, remote, id, w) {
      var i :| 0 <= i < |remote| && remote[i] == v && v.rowId == id && (id in m ==> Beats(v, m[id])) &&
        FirstOfRank(remote, i);
      var j :| 0 <= j < |remote| && remote[j] == w && w.rowId == id && (id in m ==> Beats(w, m[id])) &&
        FirstOfRank(remote, j);
    }
  }

  /**
   Specification of the merge: strictly sorted by RowID, exactly the union of the ids, and for each
   id the maximum by (version, createdAt), the last local row first on ties, then the earliest remote.
   */
  lemma MergeMeans(local: seq<SheetRow>, remote: seq<SheetRow>)
    ensures var out := Merged(local, remote);
      && (forall i, j :: 0 <= i < j < |out| ==> Less(out[i].rowId, out[j].rowId))
      && (forall id :: HasRow(out, id) <==> HasRow(local, id) || HasRow(remote, id))
      && (forall i :: 0 <= i < |out| ==> Winner(LastLocal(local), remote, out[i].rowId, out[i]))
  {
    var m := MergeMap(local, remote);
    var ids, out := KeysInOrder(m.Keys), Merged(local, remote);
    KeysInOrderSorted(m.Keys);
    LastLocalMeans(local);
    MergeKeyed(local, remote);
    forall i | 0 <= i < |out| ensures out[i].rowId == ids[i] && Winner(LastLocal(local), remote, out[i].rowId, out[i]) {
      AddRemoteMeans(LastLocal(local), remote, ids[i]);
    }
    forall id ensures HasRow(out, id) <==> HasRow(local, id) || HasRow(remote, id) {
      AddRemoteMeans(LastLocal(local), remote, id);
      if id in m {
        var i :| 0 <= i < |ids| && ids[i] == id;
        assert out[i].rowId == id;
      }
    }
  }

  // ------------------------------------------------------------------ the merge in terms of version and time

  /** Each row of the output is a row of its id in the merged map, and the winner of that id. */
  lemma OutputWins(local: seq<SheetRow>, remote: seq<SheetRow>, w: SheetRow)
    requires w in Merged(local, remote)
    ensures Winner(LastLocal(local), remote, w.rowId, w)
  {
    MergeMeans(local, remote);
  }

  /**
   The output has for each id the highest version, and among rows of that version the latest time: no remote row
   and no last local row of the id is above it.
   */
  lemma MergeKeepsMaximum(local: seq<SheetRow>, remote: seq<SheetRow>, w: SheetRow)
    requires w in Merged(local, remote)
    ensures forall j :: 0 <= j < |remote| && remote[j].rowId == w.rowId ==>
      || ExtractVersion(remote[j].payload) < ExtractVersion(w.payload)
      || (ExtractVersion(remote[j].payload) == ExtractVersion(w.payload)
          && ExtractCreatedAt(remote[j].payload) <= ExtractCreatedAt(w.payload))
    ensures forall k | 0 <= k < |local| && local[k].rowId == w.rowId &&
      (forall l :: k < l < |local| ==> local[l].rowId != w.rowId) ::
      || ExtractVersion(local[k].payload) < ExtractVersion(w.payload)
      || (ExtractVersion(local[k].payload) == ExtractVersion(w.payload)
          && ExtractCreatedAt(local[k].payload) <= ExtractCreatedAt(w.payload))
  {
    OutputWins(local, remote, w);
    LastLocalMeans(local);
    forall k | 0 <= k < |local| && local[k].rowId == w.rowId &&
      forall l :: k < l < |local| ==> local[l].rowId != w.rowId
      ensures w == local[k] || Beats(w, local[k])
    {
      assert LastAt(local, k);
    }
  }

  /**
   A last local row stays exactly when no remote row of its id has a higher version or, at its version, a later
   time.
   */
  lemma LocalStaysIff(local: seq<SheetRow>, remote: seq<SheetRow>, k: int, w: SheetRow)
    requires 0 <= k < |local| && forall l :: k < l < |local| ==> local[l].rowId != local[k].rowId
    requires w in Merged(local, remote) && w.rowId == local[k].rowId
    ensures w == local[k] <==> forall j :: 0 <= j < |remote| && remote[j].rowId == w.rowId ==>
      !(|| ExtractVersion(remote[j].payload) > ExtractVersion(local[k].payload)
        || (ExtractVersion(remote[j].payload) == ExtractVersion(local[k].payload)
            && ExtractCreatedAt(remote[j].payload) > ExtractCreatedAt(local[k].payload)))
  {
    OutputWins(local, remote, w);
    LastLocalMeans(local);
    assert LastAt(local, k);
  }

  /**
   A remote row is in the output if it is above the last local row of its id, if there is one, not below any remote
   row of the id, and above every earlier one.
   */
  lemma EarliestMaximumWins(local: seq<SheetRow>, remote: seq<SheetRow>, i: int)
    requires 0 <= i < |remote|
    requires forall j :: 0 <= j < |remote| && remote[j].rowId == remote[i].rowId ==>
      || ExtractVersion(remote[j].payload) < ExtractVersion(remote[i].payload)
      || (ExtractVersion(remote[j].payload) == ExtractVersion(remote[i].payload)
          && ExtractCreatedAt(remote[j].payload) <= ExtractCreatedAt(remote[i].payload))
    requires forall j :: 0 <= j < i && remote[j].rowId == remote[i].rowId ==>
      ExtractVersion(remote[j].payload) != ExtractVersion(remote[i].payload)
      || ExtractCreatedAt(remote[j].payload) != ExtractCreatedAt(remote[i].payload)
    requires forall k | 0 <= k < |local| && local[k].rowId == remote[i].rowId &&
      (forall l :: k < l < |local| ==> local[l].rowId != local[k].rowId) ::
      || ExtractVersion(local[k].payload) < ExtractVersion(remote[i].payload)
      || (ExtractVersion(local[k].payload) == ExtractVersion(remote[i].payload)
          && ExtractCreatedAt(local[k].payload) < ExtractCreatedAt(remote[i].payload))
    ensures remote[i] in Merged(local, remote)
  {
    var m, id := LastLocal(local), remote[i].rowId;
    LastLocalMeans(local);
    if id in m {
      var k := LastIndex(local, id);
      assert LastAt(local, k);
    }
    assert FirstOfRank(remote, i);
    assert WinsAt(m, remote, id, remote[i]);
    WinnerIsOutput(local, remote, i);
  }

  /** A remote row that is the winner of its id is in the output. */
  lemma WinnerIsOutput(local: seq<SheetRow>, remote: seq<SheetRow>, i: int)
    requires 0 <= i < |remote| && Winner(LastLocal(local), remote, remote[i].rowId, remote[i])
    ensures remote[i] in Merged(local, remote)
  {
    var out, id := Merged(local, remote), remote[i].rowId;
    MergeMeans(local, remote);
    assert HasRow(remote, id);
    var n :| 0 <= n < |out| && out[n].rowId == id;
    WinnerUnique(LastLocal(local), remote, id, remote[i], out[n]);
  }

  lemma {:induction false} LastIndex(local: seq<SheetRow>, id: string) returns (k: int)
    requires HasRow(local, id)
    ensures 0 <= k < |local| && local[k].rowId == id && forall l :: k < l < |local| ==> local[l].rowId != id
    decreases |local|
  {
    k := |local| - 1;
    if local[k].rowId != id {
      var i :| 0 <= i < |local| && local[i].rowId == id;
      assert local[..k][i].rowId == id;
      k := LastIndex(local[..k], id);
    }
  }
}
