/**
 Sheet rows as index-keyed payloads and back: the loop of FetchChanges that builds the payloads, and
 OrderedSliceByIndex, which turns a payload into a row again.
 */
module RowPayload {
  import opened Wrappers
  import opened Decimal
  import opened SheetRows
  import opened Sorting
  import Ledger
  import SheetSync

  const EMPTY := Text("", None)

  /** Atoi with its error dropped. */
  function IndexOf(key: string): int
  {
    ParseInt(key).value
  }

  /** What a payload holds for column j; a missing or nil cell is written as the empty string. */
  function CellAt(p: CellMap, j: int): Cell
  {
    var c := Lookup(p, Itoa(j));
    if c == Nil then EMPTY else c
  }

  /** The slice, or a run-time panic for an index that is negative or whose successor overflows. */
  datatype Ordered = Panics | Slice(cells: seq<Cell>)

  predicate BadIndex(key: string)
  {
    IndexOf(key) < 0 || IndexOf(key) == MAX_INT64
  }

  /** What OrderedSliceByIndex must return. */
  predicate IsOrderedSlice(p: CellMap, r: Ordered)
  {
    if p == map[] then r == Slice([])
    else
      && (r.Panics? <==> exists k :: k in p && BadIndex(k))
      && (r.Slice? ==>
          && (exists k :: k in p && IndexOf(k) + 1 == |r.cells|)
          && (forall k :: k in p ==> IndexOf(k) < |r.cells|)
          && (forall j :: 0 <= j < |r.cells| ==> r.cells[j] == CellAt(p, j)))
  }

  predicate AtMost(a: int, b: int)
  {
    a <= b
  }

  /** The parsed keys, in map iteration order. */
  method Indices(payload: CellMap) returns (indices: seq<int>)
    ensures |indices| == |payload|
    ensures forall k :: k in payload ==> IndexOf(k) in indices
    ensures forall n :: n in indices ==> exists k :: k in payload && IndexOf(k) == n
  {
    indices := [];
    var keys := KeysOf(payload);
    for i := 0 to |keys|
      invariant |indices| == i && forall j :: 0 <= j < i ==> indices[j] == IndexOf(keys[j])
    {
      indices := indices + [IndexOf(keys[i])];
    }
    forall k | k in payload ensures IndexOf(k) in indices {
      var i :| 0 <= i < |keys| && keys[i] == k;
      assert indices[i] == IndexOf(k);
    }
    forall n | n in indices ensures exists k :: k in payload && IndexOf(k) == n {
      var i :| 0 <= i < |indices| && indices[i] == n;
      assert keys[i] in keys;
    }
  }

  /** Copy the indexed cells into a row of nil cells. */
  method FillRow(payload: CellMap, indices: seq<int>, length: nat) returns (row: seq<Cell>)
    requires forall n :: n in indices ==> 0 <= n < length
    ensures |row| == length
    ensures forall j :: 0 <= j < length ==> row[j] == if j in indices then Lookup(payload, Itoa(j)) else Nil
  {
    row := seq(length, _ => Nil);
    for i := 0 to |indices|
      invariant |row| == length
      invariant forall j :: 0 <= j < length ==> row[j] == if j in indices[..i] then Lookup(payload, Itoa(j)) else Nil
    {
      assert indices[i] in indices;
      assert indices[..i + 1] == indices[..i] + [indices[i]];
      row := row[indices[i] := Lookup(payload, Itoa(indices[i]))];
    }
    assert indices[..|indices|] == indices;
  }

  /** Replace the nil cells. */
  method FillGaps(cells: seq<Cell>) returns (row: seq<Cell>)
    ensures |row| == |cells|
    ensures forall j :: 0 <= j < |row| ==> row[j] == if cells[j] == Nil then EMPTY else cells[j]
  {
    row := cells;
    for i := 0 to |row|
      invariant |row| == |cells|
      invariant forall j :: 0 <= j < |row| ==> row[j] == if j < i && cells[j] == Nil then EMPTY else cells[j]
    {
      if row[i] == Nil { row := row[i := EMPTY]; }
    }
  }

  /** A column whose number is a key was parsed from that key. */
  lemma PresentColumnsAreIndexed(payload: CellMap, indices: seq<int>, j: int)
    requires 0 <= j <= MAX_INT64 && forall k :: k in payload ==> IndexOf(k) in indices
    ensures j !in indices ==> Lookup(payload, Itoa(j)) == Nil
  {
    ParseOfItoa(j);
  }

  /** The indices are the parsed keys, no more and no less. */
  ghost predicate IndicesOf(p: CellMap, indices: seq<int>)
  {
    (forall k :: k in p ==> IndexOf(k) in indices) &&
      (forall n :: n in indices ==> exists k :: k in p && IndexOf(k) == n)
  }

  lemma PanicIsRight(p: CellMap, indices: seq<int>, n: int)
    requires IndicesOf(p, indices) && n in indices && (n < 0 || n == MAX_INT64)
    ensures IsOrderedSlice(p, Panics)
  {
    var k :| k in p && IndexOf(k) == n;
    assert BadIndex(k);
  }

  lemma SliceIsRight(p: CellMap, indices: seq<int>, last: int, row: seq<Cell>)
    requires p != map[] && IndicesOf(p, indices) && last in indices
    requires 0 <= last < MAX_INT64 && |row| == last + 1 && forall n :: n in indices ==> 0 <= n <= last
    requires forall j :: 0 <= j < |row| ==> row[j] == if j in indices then CellAt(p, j) else EMPTY
    ensures IsOrderedSlice(p, Slice(row))
  {
    forall j | 0 <= j < |row| ensures row[j] == CellAt(p, j) {
      PresentColumnsAreIndexed(p, indices, j);
    }
  }

  method SortIndices(payload: CellMap, indices: seq<int>) returns (sorted: seq<int>)
    requires IndicesOf(payload, indices) && |indices| > 0
    ensures IndicesOf(payload, sorted) && |sorted| > 0
    ensures forall n :: n in sorted ==> sorted[0] <= n <= sorted[|sorted| - 1]
  {
    sorted := Sort(indices, AtMost);
    SameContents(indices, sorted);
    forall n | n in sorted ensures sorted[0] <= n <= sorted[|sorted| - 1] {
      var i :| 0 <= i < |sorted| && sorted[i] == n;
    }
  }

  method OrderedSliceByIndex(payload: CellMap) returns (r: Ordered)
    ensures IsOrderedSlice(payload, r)
  {
    if |payload| == 0 { return Slice([]); }
    var indices := Indices(payload);
    indices := SortIndices(payload, indices);
    var last := indices[|indices| - 1];
    assert last in indices && indices[0] in indices;
    if indices[0] < 0 || last == MAX_INT64 {
      PanicIsRight(payload, indices, if indices[0] < 0 then indices[0] else last);
      return Panics;
    }
    var cells := FillRow(payload, indices, last + 1);
    var row := FillGaps(cells);
    SliceIsRight(payload, indices, last, row);
    r := Slice(row);
  }

  /** The result in terms of keys and cells: when it panics, how long it is, and what stands in each place. */
  lemma OrderedSliceMeans(p: CellMap, r: Ordered)
    requires IsOrderedSlice(p, r)
    ensures p == map[] ==> r == Slice([])
    ensures r.Panics? <==> exists k ::
      k in p && (ParseInt(k).value < 0 || ParseInt(k).value == 9_223_372_036_854_775_807)
    ensures r.Slice? ==> forall j :: 0 <= j < |r.cells| ==>
      r.cells[j] == if Itoa(j) in p && !p[Itoa(j)].Nil? then p[Itoa(j)] else Text("", None)
    ensures r.Slice? ==> forall k :: k in p ==> ParseInt(k).value < |r.cells|
    ensures r.Slice? && |r.cells| > 0 ==> exists k :: k in p && ParseInt(k).value == |r.cells| - 1
  {
    assert forall k :: k in p ==> IndexOf(k) == ParseInt(k).value;
  }

  // ------------------------------------------------------------------ building the payload

  /** The payload holds exactly the row's cells under their column numbers. */
  ghost predicate IsRowPayload(row: seq<Cell>, p: CellMap)
  {
    && (forall j :: 0 <= j < |row| ==> Itoa(j) in p && p[Itoa(j)] == row[j])
    && (forall k :: k in p ==> exists j :: 0 <= j < |row| && k == Itoa(j))
  }

  method RowToPayload(row: seq<Cell>) returns (payload: CellMap)
    requires |row| <= MAX_INT64
    ensures IsRowPayload(row, payload)
  {
    payload := map[];
    for j := 0 to |row|
      invariant IsRowPayload(row[..j], payload)
    {
      OneMoreCell(row, j, payload);
      payload := payload[Itoa(j) := row[j]];
    }
    assert row[..|row|] == row;
  }

  /** The change made from one data row: its 1-based sheet row number and its cells. */
  ghost predicate IsChange(row: seq<Cell>, number: int, change: SheetRow)
  {
    change.rowId == Itoa(number) && IsRowPayload(row, change.payload)
  }

  /** The data rows of a sheet, the header left out, with 1-based sheet row numbers as RowIDs. */
  method RowsToChanges(rows: seq<seq<Cell>>) returns (remote: seq<SheetRow>)
    requires forall i :: 0 <= i < |rows| ==> |rows[i]| <= MAX_INT64
    ensures |remote| == if |rows| == 0 then 0 else |rows| - 1
    ensures forall i :: 0 <= i < |remote| ==> IsChange(rows[i + 1], i + 2, remote[i])
    ensures forall i :: 0 <= i < |remote| ==> remote[i].rowId == Itoa(i + 2)
    ensures forall i, j :: 0 <= i < |remote| && 0 <= j < |rows[i + 1]| ==>
      Itoa(j) in remote[i].payload && remote[i].payload[Itoa(j)] == rows[i + 1][j]
  {
    remote := [];
    if |rows| == 0 { return; }
    for i := 1 to |rows|
      invariant |remote| == i - 1
      invariant forall k :: 0 <= k < |remote| ==> IsChange(rows[k + 1], k + 2, remote[k])
    {
      var payload := RowToPayload(rows[i]);
      var change := SheetRow(Itoa(i + 1), payload);
      assert IsChange(rows[i], i + 1, change);
      remote := remote + [change];
    }
  }

  lemma OneMoreCell(row: seq<Cell>, n: nat, p: CellMap)
    requires n < |row| <= MAX_INT64 && IsRowPayload(row[..n], p)
    ensures IsRowPayload(row[..n + 1], p[Itoa(n) := row[n]])
  {
    var key, p' := Itoa(n), p[Itoa(n) := row[n]];
    forall j | 0 <= j < n + 1 ensures Itoa(j) in p' && p'[Itoa(j)] == row[j] {
      if j < n {
        assert row[..n][j] == row[j];
        if Itoa(j) == key { ItoaInjective(j, n); }
      }
    }
    forall k | k in p' ensures exists j :: 0 <= j < n + 1 && k == Itoa(j) {
      if k != key {
        var j :| 0 <= j < n && k == Itoa(j);
      }
    }
  }

  // ------------------------------------------------------------------ the rank of a fetched row

  lemma KeysAreNumbers(row: seq<Cell>, p: CellMap, k: string)
    requires IsRowPayload(row, p) && k != "" && !IsDigit(k[0])
    ensures k !in p
  {
  }

  /** What a payload built from a row holds under a column number is the row's cell, or nothing. */
  lemma LookupColumn(row: seq<Cell>, p: CellMap, n: nat)
    requires IsRowPayload(row, p) && |row| <= MAX_INT64 && n <= MAX_INT64
    ensures Lookup(p, Itoa(n)) == if n < |row| then row[n] else Nil
  {
    if Itoa(n) in p {
      var j :| 0 <= j < |row| && Itoa(n) == Itoa(j);
      ItoaInjective(n, j);
    }
  }

  /** A row fetched from a sheet is ranked by its columns 1 (version) and 2 (time), and by nothing else. */
  lemma FetchedRowRank(row: seq<Cell>, p: CellMap)
    requires IsRowPayload(row, p) && |row| <= MAX_INT64
    ensures var version := if |row| > 1 then VersionIn(row[1]) else None;
      var time := if |row| > 2 then CreatedAtIn(row[2]) else None;
      && ExtractVersion(p) == (if version.Some? then version.value else 0)
      && ExtractCreatedAt(p) == (if time.Some? then time.value
                                 else if ExtractVersion(p) > 0 then UnixTime(ExtractVersion(p)) else ZERO_TIME)
  {
    KeysAreNumbers(row, p, "version");
    KeysAreNumbers(row, p, "createdAt");
    LookupColumn(row, p, 1);
    LookupColumn(row, p, 2);
    assert Itoa(1) == "1" && Itoa(2) == "2";
  }

  /** A version written to a sheet as decimal text is read back unchanged. */
  lemma VersionReadsBack(p: CellMap, v: int, asTime: Option<int>)
    requires IsInt64(v)
    ensures ExtractVersion(p["version" := Text(Itoa(v), asTime)]) == v
    ensures "version" !in p ==> ExtractVersion(p["1" := Text(Itoa(v), asTime)]) == v
  {
    ParseOfItoa(v);
  }

  /**
   The keys of a local row are not numbers, so as a sheet row it is a single empty cell: the event does not
   reach the sheet.
   */
  lemma LocalRowIsOneEmptyCell(e: Ledger.Event, r: Ordered)
    requires IsOrderedSlice(SheetSync.LocalRow(e).payload, r)
    ensures r == Slice([Text("", None)])
  {
    var p := SheetSync.LocalRow(e).payload;
    forall k | k in p ensures IndexOf(k) == 0 {
      NotANumber(k);
    }
    assert "raw" in p;
    assert Lookup(p, Itoa(0)) == Nil;
  }

  // ------------------------------------------------------------------ round trips

  lemma KeyOfRow(row: seq<Cell>, p: CellMap, k: string)
    requires |row| <= MAX_INT64 && IsRowPayload(row, p) && k in p
    ensures 0 <= IndexOf(k) < |row| && !BadIndex(k)
  {
    var j :| 0 <= j < |row| && k == Itoa(j);
    ParseOfItoa(j);
  }

  /** Row to payload and back is the identity on rows of non-nil cells. */
  lemma RowRoundTrip(row: seq<Cell>, p: CellMap, r: Ordered)
    requires |row| <= MAX_INT64 && forall j :: 0 <= j < |row| ==> row[j] != Nil
    requires IsRowPayload(row, p) && IsOrderedSlice(p, r)
    ensures r == Slice(row)
  {
    forall k | k in p ensures 0 <= IndexOf(k) < |row| && !BadIndex(k) {
      KeyOfRow(row, p, k);
    }
    if |row| == 0 {
      assert p.Keys == {};
    } else {
      var last := |row| - 1;
      ParseOfItoa(last);
      assert Itoa(last) in p && IndexOf(Itoa(last)) == last;
      assert r.Slice?;
      forall j | 0 <= j < |row| ensures CellAt(p, j) == row[j] {
        assert Itoa(j) in p;
      }
      assert r.cells == row;
    }
  }

  /** A key in canonical decimal form. */
  ghost predicate Canonical(k: string)
  {
    exists n :: 0 <= n < MAX_INT64 && k == Itoa(n)
  }

  lemma CanonicalIndices(p: CellMap, max: int)
    requires (forall k :: k in p ==> Canonical(k)) && 0 <= max < MAX_INT64 && forall n :: max < n < MAX_INT64 ==>
      Itoa(n) !in p
    ensures forall k :: k in p ==> 0 <= IndexOf(k) <= max && !BadIndex(k)
  {
    forall k | k in p ensures 0 <= IndexOf(k) <= max && !BadIndex(k) {
      var n :| 0 <= n < MAX_INT64 && k == Itoa(n);
      ParseOfItoa(n);
    }
  }

  /**
   For canonical keys the row reaches exactly to the largest index, and the gaps are exactly the missing or nil
   keys.
   */
  lemma CanonicalPayload(p: CellMap, r: Ordered, max: int)
    requires p != map[] && (forall k :: k in p ==> Canonical(k)) && IsOrderedSlice(p, r)
    requires Itoa(max) in p && 0 <= max < MAX_INT64 && forall n :: max < n < MAX_INT64 ==> Itoa(n) !in p
    ensures r.Slice? && |r.cells| == max + 1
    ensures forall j :: 0 <= j <= max ==>
      r.cells[j] == if Itoa(j) in p && p[Itoa(j)] != Nil then p[Itoa(j)] else Text("", None)
  {
    CanonicalIndices(p, max);
    assert r.Slice?;
    assert IndexOf(Itoa(max)) == max by { ParseOfItoa(max); }
    LengthIsMaxPlusOne(p, r.cells, max, Itoa(max));
    forall j | 0 <= j <= max
      ensures r.cells[j] == if Itoa(j) in p && p[Itoa(j)] != Nil then p[Itoa(j)] else Text("", None)
    {
      assert r.cells[j] == CellAt(p, j);
    }
  }

  lemma LengthIsMaxPlusOne(p: CellMap, cells: seq<Cell>, max: int, last: string)
    requires last in p && IndexOf(last) == max && forall k :: k in p ==> IndexOf(k) <= max
    requires (exists k :: k in p && IndexOf(k) + 1 == |cells|) && forall k :: k in p ==> IndexOf(k) < |cells|
    ensures |cells| == max + 1
  {
  }

  /** At most one slice is right for a payload. */
  lemma OrderedSliceUnique(p: CellMap, r: Ordered, r': Ordered)
    requires IsOrderedSlice(p, r) && IsOrderedSlice(p, r')
    ensures r == r'
  {
    if p != map[] && r.Slice? {
      assert |r.cells| == |r'.cells|;
      assert r.cells == r'.cells;
    }
  }
}
