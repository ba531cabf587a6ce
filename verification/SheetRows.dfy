/** Sheet rows as keyed payloads of loosely typed cells, and the rank (version, createdAt) read from them. */
module SheetRows {
  import opened Wrappers
  import opened Decimal
  import L = Ledger

  /**
   A dynamically typed cell. A text cell also carries what parsing it as an RFC 3339 time gives
   (section 5.6 of RFC 3339), because that library call is not part of this model. Times are
   nanoseconds counted from the zero time.
   */
  datatype Cell =
    | Nil
    | Int64(n: int)
    | Int(i: int)
    | Float64(x: real)
    | Text(s: string, asTime: Option<int>)
    | Time(t: int)
    | Raw(payload: L.Payload)

  type CellMap = map<string, Cell>

  datatype SheetRow = SheetRow(rowId: string, payload: CellMap)

  const ZERO_TIME := 0
  const NANOS := 1_000_000_000
  const UNIX_EPOCH_SECONDS := 62_135_596_800

  function Truncated(x: real): int
  {
    if x >= 0.0 then x.Floor else -((-x).Floor)
  }

  function Lookup(p: CellMap, key: string): Cell
  {
    if key in p then p[key] else Nil
  }

  /** The version a cell of a usable type holds. */
  function VersionIn(c: Cell): Option<int>
  {
    match c
    case Int64(n) => Some(n)
    case Int(i) => Some(i)
    case Float64(x) => Some(Truncated(x))
    case Text(s, _) => Some(ParseInt(s).value)
    case _ => None
  }

  function ExtractVersion(p: CellMap): int
  {
    match VersionIn(Lookup(p, "version"))
    case Some(v) => v
    case None =>
      match VersionIn(Lookup(p, "1"))
      case Some(v) => v
      case None => 0
  }

  /** A time cell counts even when it is the zero time; a text cell only when it parses to another time. */
  function CreatedAtIn(c: Cell): Option<int>
  {
    match c
    case Time(t) => Some(t)
    case Text(_, Some(t)) => if t != ZERO_TIME then Some(t) else None
    case _ => None
  }

  function WrapInt64(n: int): (w: int)
    ensures IsInt64(w) && (IsInt64(n) ==> w == n)
  {
    (n - MIN_INT64) % 0x1_0000_0000_0000_0000 + MIN_INT64
  }

  /** Seconds since 1970 as a time; the shift to the zero time wraps like the machine's addition. */
  function UnixTime(seconds: int): int
  {
    WrapInt64(seconds + UNIX_EPOCH_SECONDS) * NANOS
  }

  function ExtractCreatedAt(p: CellMap): int
  {
    match CreatedAtIn(Lookup(p, "createdAt"))
    case Some(t) => t
    case None =>
      match CreatedAtIn(Lookup(p, "2"))
      case Some(t) => t
      case None =>
        var v := ExtractVersion(p);
        if v > 0 then UnixTime(v) else ZERO_TIME
  }

  // ------------------------------------------------------------------ rank

  function Version(r: SheetRow): int { ExtractVersion(r.payload) }

  function CreatedAt(r: SheetRow): int { ExtractCreatedAt(r.payload) }

  /** The new row replaces the current one: higher version, or the same version and a later time. */
  predicate Beats(new_: SheetRow, cur: SheetRow)
  {
    Version(new_) > Version(cur) || (Version(new_) == Version(cur) && CreatedAt(new_) > CreatedAt(cur))
  }

  // ------------------------------------------------------------------ what is read from which cell

  /** The cell decides the version: "version" does, or "1" where "version" holds nothing usable. */
  lemma VersionIsRead(p: CellMap, key: string)
    requires key == "version" || (key == "1" &&
      ("version" !in p || p["version"].Nil? || p["version"].Time? || p["version"].Raw?))
    ensures key !in p && key == "1" ==> ExtractVersion(p) == 0
    ensures key in p ==>
      match p[key]
      case Int64(n) => ExtractVersion(p) == n
      case Int(n) => ExtractVersion(p) == n
      case Float64(x) =>
        if x >= 0.0 then ExtractVersion(p) as real <= x < (ExtractVersion(p) + 1) as real
        else (ExtractVersion(p) - 1) as real < x <= ExtractVersion(p) as real
      case Text(s, _) => ExtractVersion(p) == ParseInt(s).value
      case _ => key == "1" ==> ExtractVersion(p) == 0
  {
  }

  /** The cell decides the time: "createdAt" does, or "2" where "createdAt" holds nothing usable. */
  lemma CreatedAtIsRead(p: CellMap, key: string)
    requires key == "createdAt" || (key == "2" &&
      ("createdAt" in p ==> !p["createdAt"].Time?) &&
      ("createdAt" in p && p["createdAt"].Text? ==>
        p["createdAt"].asTime.None? || p["createdAt"].asTime == Some(0)))
    requires key in p
    ensures p[key].Time? ==> ExtractCreatedAt(p) == p[key].t
    ensures p[key].Text? && p[key].asTime.Some? && p[key].asTime != Some(0) ==>
      ExtractCreatedAt(p) == p[key].asTime.value
  {
  }

  /** Without a usable cell a positive version counts as seconds since 1970, up to where the sum leaves 64 bits. */
  lemma CreatedAtFromVersion(p: CellMap)
    requires forall key | key in p && (key == "createdAt" || key == "2") ::
      !p[key].Time? && (p[key].Text? ==> p[key].asTime.None? || p[key].asTime == Some(0))
    ensures var v := ExtractVersion(p);
      && (v <= 0 ==> ExtractCreatedAt(p) == 0)
      && (0 < v <= 9_223_372_036_854_775_807 - 62_135_596_800 ==>
          ExtractCreatedAt(p) == (v + 62_135_596_800) * 1_000_000_000)
      && (9_223_372_036_854_775_807 - 62_135_596_800 < v <= 9_223_372_036_854_775_807 ==>
          ExtractCreatedAt(p) == (v + 62_135_596_800 - 18_446_744_073_709_551_616) * 1_000_000_000)
  {
  }
}
