/**
 The two additive read models. A projector's table is a function of the events it has applied; the
 lemmas say what every cell of it adds up to, and what the cells of one user and month add up to.
 */
module Projection {
  import opened Ledger
  import opened Sums

  datatype SummaryKey = SummaryKey(userId: string, month: int, currency: string, kind: string)
  datatype BalanceKey = BalanceKey(userId: string, accountId: string, month: int)
  datatype Bucket = Bucket(total: int, count: int)

  type Summary = map<SummaryKey, Bucket>
  type Balance = map<BalanceKey, int>

  /** What one transaction content weighs in some aggregate. */
  type Measure = (string, Content) -> int

  // ------------------------------------------------------------------ one event

  /** +1 for create and for update, -1 for delete, 0 for anything the projectors skip. */
  function Sign(e: Event): int
  {
    if e.entityType != "transaction" then 0
    else if e.opType == "create" || e.opType == "update" then 1
    else if e.opType == "delete" then -1
    else 0
  }

  function SummaryKeyOf(userId: string, c: Content): SummaryKey
  {
    SummaryKey(userId, c.occurredAt.month, if c.currency == "" then "IDR" else c.currency,
               if c.kind == "" then "expense" else c.kind)
  }

  function BalanceKeyOf(userId: string, c: Content): BalanceKey
  {
    BalanceKey(userId, c.accountId, c.occurredAt.month)
  }

  /** A transaction event whose payload does not unmarshal makes Process fail. */
  predicate Decodable(e: Event)
  {
    e.entityType != "transaction" || e.payload.Json?
  }

  /** Process fails on an undecodable payload, and when its one SQL statement runs and fails. */
  predicate ProcessOk(e: Event, dbFails: bool)
  {
    Decodable(e) && (dbFails ==> Sign(e) == 0)
  }

  function SummaryAfter(t: Summary, e: Event): Summary
  {
    if Sign(e) == 0 || e.payload.NotJson? then t
    else
      var c := e.payload.row.content;
      var k := SummaryKeyOf(e.payload.row.userId, c);
      var cell := SummaryCell(t, k);
      t[k := if Sign(e) == 1 then Bucket(cell.total + c.amount, cell.count + 1)
             else Bucket(cell.total - c.amount, cell.count - 1)]
  }

  function BalanceAfter(t: Balance, e: Event): Balance
  {
    if Sign(e) == 0 || e.payload.NotJson? then t
    else
      var c := e.payload.row.content;
      var k := BalanceKeyOf(e.payload.row.userId, c);
      t[k := BalanceCell(t, k) + (if Sign(e) == 1 then c.amount else -c.amount)]
  }

  function SummaryCell(t: Summary, k: SummaryKey): Bucket
  {
    if k in t then t[k] else Bucket(0, 0)
  }

  function BalanceCell(t: Balance, k: BalanceKey): int
  {
    if k in t then t[k] else 0
  }

  // ------------------------------------------------------------------ the tables as functions of history

  function SummaryTable(es: seq<Event>): Summary
  {
    if |es| == 0 then map[] else SummaryAfter(SummaryTable(es[..|es| - 1]), es[|es| - 1])
  }

  function BalanceTable(es: seq<Event>): Balance
  {
    if |es| == 0 then map[] else BalanceAfter(BalanceTable(es[..|es| - 1]), es[|es| - 1])
  }

  class TransactionSummaryProjector {
    var table: Summary
    ghost var applied: seq<Event>

    ghost predicate Valid()
      reads this
    {
      table == SummaryTable(applied)
    }

    constructor ()
      ensures Valid() && applied == []
    {
      table, applied := map[], [];
    }

    method Process(e: Event, dbFails: bool) returns (ok: bool)
      requires Valid()
      modifies this
      ensures Valid() && ok == ProcessOk(e, dbFails)
      ensures applied == if ok then old(applied) + [e] else old(applied)
    {
      ok := Project(e, dbFails);
      if ok {
        assert (applied + [e])[..|applied|] == applied;
        applied := applied + [e];
      }
    }

    /** The branches of Process. */
    method Project(e: Event, dbFails: bool) returns (ok: bool)
      modifies this`table
      ensures ok <==>
        || e.entityType != "transaction"
        || (e.payload.Json? && !(dbFails && e.opType in {"create", "update", "delete"}))
      ensures !ok || e.entityType != "transaction" || e.opType !in {"create", "update", "delete"} ==>
        table == old(table)
      ensures ok && e.entityType == "transaction" && e.opType in {"create", "update", "delete"} ==>
        var row := e.payload.row;
        var currency := if row.content.currency == "" then "IDR" else row.content.currency;
        var kind := if row.content.kind == "" then "expense" else row.content.kind;
        var key := SummaryKey(row.userId, row.content.occurredAt.month, currency, kind);
        var cell := if key in old(table) then old(table)[key] else Bucket(0, 0);
        table == old(table)[key :=
          if e.opType == "delete" then Bucket(cell.total - row.content.amount, cell.count - 1)
          else Bucket(cell.total + row.content.amount, cell.count + 1)]
      ensures ok == ProcessOk(e, dbFails)
      ensures table == if ok then SummaryAfter(old(table), e) else old(table)
    {
      ok := true;
      if e.entityType == "transaction" {
        if e.payload.NotJson? { return false; }
        var txn := e.payload.row;
        var currency := if txn.content.currency == "" then "IDR" else txn.content.currency;
        var kind := if txn.content.kind == "" then "expense" else txn.content.kind;
        var key := SummaryKey(txn.userId, txn.content.occurredAt.month, currency, kind);
        if e.opType == "create" {
          ok := Add(key, txn.content.amount, 1, dbFails);
        } else if e.opType == "delete" {
          ok := Add(key, -txn.content.amount, -1, dbFails);
        } else if e.opType == "update" {
          ok := Add(key, txn.content.amount, 1, dbFails);
        }
      }
    }

    /** INSERT ... ON CONFLICT DO UPDATE: add to the bucket, creating it if it is missing. */
    method Add(key: SummaryKey, amount: int, countDelta: int, dbFails: bool) returns (ok: bool)
      modifies this`table
      ensures ok == !dbFails
      ensures !ok ==> table == old(table)
      ensures ok ==> table == old(table)[key := Bucket(SummaryCell(old(table), key).total + amount,
                                                       SummaryCell(old(table), key).count + countDelta)]
    {
      if dbFails { return false; }
      if key in table {
        table := table[key := Bucket(table[key].total + amount, table[key].count + countDelta)];
      } else {
        table := table[key := Bucket(amount, countDelta)];
      }
      ok := true;
    }
  }

  class MonthlyBalanceProjector {
    var table: Balance
    ghost var applied: seq<Event>

    ghost predicate Valid()
      reads this
    {
      table == BalanceTable(applied)
    }

    constructor ()
      ensures Valid() && applied == []
    {
      table, applied := map[], [];
    }

    method Process(e: Event, dbFails: bool) returns (ok: bool)
      requires Valid()
      modifies this
      ensures Valid() && ok == ProcessOk(e, dbFails)
      ensures applied == if ok then old(applied) + [e] else old(applied)
    {
      ok := Project(e, dbFails);
      if ok {
        assert (applied + [e])[..|applied|] == applied;
        applied := applied + [e];
      }
    }

    /** The branches of Process. */
    method Project(e: Event, dbFails: bool) returns (ok: bool)
      modifies this`table
      ensures ok <==>
        || e.entityType != "transaction"
        || (e.payload.Json? && !(dbFails && e.opType in {"create", "update", "delete"}))
      ensures !ok || e.entityType != "transaction" || e.opType !in {"create", "update", "delete"} ==>
        table == old(table)
      ensures ok && e.entityType == "transaction" && e.opType in {"create", "update", "delete"} ==>
        var row := e.payload.row;
        var key := BalanceKey(row.userId, row.content.accountId, row.content.occurredAt.month);
        var cell := if key in old(table) then old(table)[key] else 0;
        table == old(table)[key :=
          if e.opType == "delete" then cell - row.content.amount else cell + row.content.amount]
      ensures ok == ProcessOk(e, dbFails)
      ensures table == if ok then BalanceAfter(old(table), e) else old(table)
    {
      ok := true;
      if e.entityType == "transaction" {
        if e.payload.NotJson? { return false; }
        var txn := e.payload.row;
        var key := BalanceKey(txn.userId, txn.content.accountId, txn.content.occurredAt.month);
        if e.opType == "create" {
          ok := Add(key, txn.content.amount, dbFails);
        } else if e.opType == "delete" {
          ok := Add(key, -txn.content.amount, dbFails);
        } else if e.opType == "update" {
          ok := Add(key, txn.content.amount, dbFails);
        }
      }
    }

    method Add(key: BalanceKey, amount: int, dbFails: bool) returns (ok: bool)
      modifies this`table
      ensures ok == !dbFails
      ensures table == if ok then old(table)[key := BalanceCell(old(table), key) + amount] else old(table)
    {
      if dbFails { return false; }
      if key in table {
        table := table[key := table[key] + amount];
      } else {
        table := table[key := amount];
      }
      ok := true;
    }
  }

  // ------------------------------------------------------------------ what the cells add up to

  /** The amount, if user, month, currency and type are those of the bucket; empty ones count as IDR and expense. */
  function AmountIn(k: SummaryKey): (f: Measure)
    ensures forall u, c ::
      f(u, c) == (
        if && u == k.userId && c.occurredAt.month == k.month
           && (if c.currency == "" then "IDR" else c.currency) == k.currency
           && (if c.kind == "" then "expense" else c.kind) == k.kind
        then c.amount else 0)
  {
    (u: string, c: Content) => if SummaryKeyOf(u, c) == k then c.amount else 0
  }

  /** One, if they are. */
  function CountIn(k: SummaryKey): (f: Measure)
    ensures forall u, c ::
      f(u, c) == (
        if && u == k.userId && c.occurredAt.month == k.month
           && (if c.currency == "" then "IDR" else c.currency) == k.currency
           && (if c.kind == "" then "expense" else c.kind) == k.kind
        then 1 else 0)
  {
    (u: string, c: Content) => if SummaryKeyOf(u, c) == k then 1 else 0
  }

  /** The amount, if user, account and month are those of the balance. */
  function BalanceIn(k: BalanceKey): (f: Measure)
    ensures forall u, c ::
      f(u, c) ==
        if u == k.userId && c.accountId == k.accountId && c.occurredAt.month == k.month then c.amount else 0
  {
    (u: string, c: Content) => if BalanceKeyOf(u, c) == k then c.amount else 0
  }

  /** The amount, if the transaction belongs to this user and month. */
  function AmountOf(user: string, month: int): (f: Measure)
    ensures forall u, c ::
      f(u, c) == if u == user && c.occurredAt.month == month then c.amount else 0
  {
    (u: string, c: Content) => if u == user && c.occurredAt.month == month then c.amount else 0
  }

  /** What one event adds to a measure: its row's weight, negative for a delete. */
  function Delta(e: Event, f: Measure): (d: int)
    ensures e.entityType == "transaction" && e.payload.Json? && e.opType in {"create", "update"} ==>
      d == f(e.payload.row.userId, e.payload.row.content)
    ensures e.entityType == "transaction" && e.payload.Json? && e.opType == "delete" ==>
      d == -f(e.payload.row.userId, e.payload.row.content)
    ensures e.entityType != "transaction" || e.payload.NotJson? || e.opType !in {"create", "update", "delete"} ==>
      d == 0
  {
    if e.payload.NotJson? || Sign(e) == 0 then 0
    else if Sign(e) == 1 then f(e.payload.row.userId, e.payload.row.content)
    else -f(e.payload.row.userId, e.payload.row.content)
  }

  /** The signed sum of a measure over a sequence of events. */
  function Signed(es: seq<Event>, f: Measure): int
  {
    if |es| == 0 then 0 else Signed(es[..|es| - 1], f) + Delta(es[|es| - 1], f)
  }

  lemma {:induction false} SummaryCellIsSigned(es: seq<Event>, k: SummaryKey)
    ensures SummaryCell(SummaryTable(es), k) == Bucket(Signed(es, AmountIn(k)), Signed(es, CountIn(k)))
    decreases |es|
  {
    if |es| > 0 {
      SummaryCellIsSigned(es[..|es| - 1], k);
    }
  }

  lemma {:induction false} BalanceCellIsSigned(es: seq<Event>, k: BalanceKey)
    ensures BalanceCell(BalanceTable(es), k) == Signed(es, BalanceIn(k))
    decreases |es|
  {
    if |es| > 0 {
      BalanceCellIsSigned(es[..|es| - 1], k);
    }
  }

  lemma {:induction false} SignedOfEqual(es: seq<Event>, f: Measure, g: Measure)
    requires forall u, c :: f(u, c) == g(u, c)
    ensures Signed(es, f) == Signed(es, g)
    decreases |es|
  {
    if |es| > 0 {
      SignedOfEqual(es[..|es| - 1], f, g);
    }
  }

  /** The balance of an account in a month, in the fields of the rows: signed sum of the amounts of its events. */
  lemma AccountBalance(es: seq<Event>, user: string, account: string, month: int, f: Measure)
    requires forall u, c: Content ::
      f(u, c) ==
        if u == user && c.accountId == account && c.occurredAt.month == month then c.amount else 0
    ensures var t, key := BalanceTable(es), BalanceKey(user, account, month);
      (if key in t then t[key] else 0) == Signed(es, f)
  {
    BalanceCellIsSigned(es, BalanceKey(user, account, month));
    SignedOfEqual(es, BalanceIn(BalanceKey(user, account, month)), f);
  }

  /** The bucket of a currency and a type in a month: signed sum and signed count of its events. */
  lemma BucketContents(es: seq<Event>, user: string, month: int, currency: string, kind: string, f: Measure, g: Measure)
    requires forall u, c: Content ::
      f(u, c) == (
        if && u == user && c.occurredAt.month == month
           && (if c.currency == "" then "IDR" else c.currency) == currency
           && (if c.kind == "" then "expense" else c.kind) == kind
        then c.amount else 0)
    requires forall u, c: Content ::
      g(u, c) == (
        if && u == user && c.occurredAt.month == month
           && (if c.currency == "" then "IDR" else c.currency) == currency
           && (if c.kind == "" then "expense" else c.kind) == kind
        then 1 else 0)
    ensures var t, key := SummaryTable(es), SummaryKey(user, month, currency, kind);
      (if key in t then t[key] else Bucket(0, 0)) == Bucket(Signed(es, f), Signed(es, g))
  {
    var key := SummaryKey(user, month, currency, kind);
    SummaryCellIsSigned(es, key);
    SignedOfEqual(es, AmountIn(key), f);
    SignedOfEqual(es, CountIn(key), g);
  }

  /** The totals of one user and month over every currency and type. */
  ghost function SummarySlice(t: Summary, user: string, month: int): map<SummaryKey, int>
  {
    map k | k in t && k.userId == user && k.month == month :: t[k].total
  }

  /** The balances of one user and month over every account. */
  ghost function BalanceSlice(t: Balance, user: string, month: int): map<BalanceKey, int>
  {
    map k | k in t && k.userId == user && k.month == month :: t[k]
  }

  lemma SummarySliceOf(t: Summary, k: SummaryKey, cell: Bucket, user: string, month: int)
    ensures SummarySlice(t[k := cell], user, month) ==
      if k.userId == user && k.month == month then SummarySlice(t, user, month)[k := cell.total]
      else SummarySlice(t, user, month)
  {
  }

  lemma SummarySlicePut(t: Summary, k: SummaryKey, cell: Bucket, user: string, month: int)
    ensures MapSum(SummarySlice(t[k := cell], user, month)) == MapSum(SummarySlice(t, user, month))
      + (if k.userId == user && k.month == month then cell.total - SummaryCell(t, k).total else 0)
  {
    SummarySliceOf(t, k, cell, user, month);
    MapSumPut(SummarySlice(t, user, month), k, cell.total);
  }

  lemma SummarySliceStep(t: Summary, e: Event, user: string, month: int)
    ensures MapSum(SummarySlice(SummaryAfter(t, e), user, month)) ==
      MapSum(SummarySlice(t, user, month)) + Delta(e, AmountOf(user, month))
  {
    if Sign(e) != 0 && e.payload.Json? {
      var k := SummaryKeyOf(e.payload.row.userId, e.payload.row.content);
      SummarySlicePut(t, k, SummaryAfter(t, e)[k], user, month);
    }
  }

  lemma {:induction false} SummarySliceIsSigned(es: seq<Event>, user: string, month: int)
    ensures MapSum(SummarySlice(SummaryTable(es), user, month)) == Signed(es, AmountOf(user, month))
    decreases |es|
  {
    if |es| > 0 {
      SummarySliceIsSigned(es[..|es| - 1], user, month);
      SummarySliceStep(SummaryTable(es[..|es| - 1]), es[|es| - 1], user, month);
    }
  }

  lemma BalanceSliceOf(t: Balance, k: BalanceKey, v: int, user: string, month: int)
    ensures BalanceSlice(t[k := v], user, month) ==
      if k.userId == user && k.month == month then BalanceSlice(t, user, month)[k := v]
      else BalanceSlice(t, user, month)
  {
  }

  lemma BalanceSlicePut(t: Balance, k: BalanceKey, v: int, user: string, month: int)
    ensures MapSum(BalanceSlice(t[k := v], user, month)) == MapSum(BalanceSlice(t, user, month))
      + (if k.userId == user && k.month == month then v - BalanceCell(t, k) else 0)
  {
    BalanceSliceOf(t, k, v, user, month);
    MapSumPut(BalanceSlice(t, user, month), k, v);
  }

  lemma BalanceSliceStep(t: Balance, e: Event, user: string, month: int)
    ensures MapSum(BalanceSlice(BalanceAfter(t, e), user, month)) ==
      MapSum(BalanceSlice(t, user, month)) + Delta(e, AmountOf(user, month))
  {
    if Sign(e) != 0 && e.payload.Json? {
      var k := BalanceKeyOf(e.payload.row.userId, e.payload.row.content);
      BalanceSlicePut(t, k, BalanceAfter(t, e)[k], user, month);
    }
  }

  lemma {:induction false} BalanceSliceIsSigned(es: seq<Event>, user: string, month: int)
    ensures MapSum(BalanceSlice(BalanceTable(es), user, month)) == Signed(es, AmountOf(user, month))
    decreases |es|
  {
    if |es| > 0 {
      BalanceSliceIsSigned(es[..|es| - 1], user, month);
      BalanceSliceStep(BalanceTable(es[..|es| - 1]), es[|es| - 1], user, month);
    }
  }

  /** Conservation: two projectors that applied the same events agree on every user and month. */
  lemma ProjectionsAgree(es: seq<Event>, user: string, month: int)
    ensures MapSum(SummarySlice(SummaryTable(es), user, month)) == MapSum(BalanceSlice(BalanceTable(es), user, month))
  {
    SummarySliceIsSigned(es, user, month);
    BalanceSliceIsSigned(es, user, month);
  }
}
