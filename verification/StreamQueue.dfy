/**
 The Redis stream with one consumer group: enqueue, read new entries, hand them to a handler and
 acknowledge on success. Any number of consumers run in the group and may stop at any point.
 */
module StreamQueue {
  import opened Decimal

  // ------------------------------------------------------------------ messages on the wire

  /** A field value as the client library hands it back. */
  datatype Field = Str(s: string) | Bytes(b: string) | I64(n: int) | I(i: int) | Other

  type Fields = map<string, Field>

  datatype Message = Message(id: nat, entity: string, operation: string, payload: string, retryCount: int)

  /** XADD: everything is stored as text; the retry count only when it is positive. */
  function Encode(msg: Message): Fields
  {
    var values := map["entity" := Str(msg.entity), "operation" := Str(msg.operation), "payload" := Str(msg.payload)];
    if msg.retryCount > 0 then values["retry_count" := Str(Itoa(msg.retryCount))] else values
  }

  function Get(fields: Fields, name: string): Field
  {
    if name in fields then fields[name] else Other
  }

  function StringOf(f: Field): string
  {
    if f.Str? then f.s else ""
  }

  function DecodeMessage(id: nat, fields: Fields): Message
  {
    var payload := match Get(fields, "payload") case Str(s) => s case Bytes(b) => b case _ => "";
    var retryCount :=
      match Get(fields, "retry_count")
      case Str(s) => if ParseInt(s).ok then ParseInt(s).value else 0
      case I64(n) => n
      case I(i) => i
      case _ => 0;
    Message(id, StringOf(Get(fields, "entity")), StringOf(Get(fields, "operation")), payload, retryCount)
  }

  /** What was enqueued is what a consumer decodes, with a negative retry count read as 0. */
  lemma DecodeInvertsEncode(msg: Message, id: nat)
    requires IsInt64(msg.retryCount)
    ensures DecodeMessage(id, Encode(msg)) ==
      msg.(id := id, retryCount := if msg.retryCount > 0 then msg.retryCount else 0)
  {
    ParseOfItoa(msg.retryCount);
  }

  /** Other types of field values: bytes are a payload too, integers a retry count, and anything else is nothing. */
  lemma OtherFieldTypes(id: nat, fields: Fields, b: string, n: int)
    ensures DecodeMessage(id, fields["payload" := Bytes(b)]).payload == b
    ensures DecodeMessage(id, fields["payload" := I64(n)]).payload == ""
    ensures DecodeMessage(id, fields - {"payload"}).payload == ""
    ensures DecodeMessage(id, fields["retry_count" := I64(n)]).retryCount == n
    ensures DecodeMessage(id, fields["retry_count" := I(n)]).retryCount == n
    ensures !ParseInt(b).ok ==> DecodeMessage(id, fields["retry_count" := Str(b)]).retryCount == 0
    ensures DecodeMessage(id, fields["retry_count" := Bytes(b)]).retryCount == 0
    ensures DecodeMessage(id, fields - {"retry_count"}).retryCount == 0
    ensures DecodeMessage(id, fields["entity" := Bytes(b)]).entity == ""
    ensures DecodeMessage(id, fields["operation" := Bytes(b)]).operation == ""
  {
  }

  // ------------------------------------------------------------------ the group as a state machine

  const BATCH := 10

  /** One call of the handler on a stream entry. */
  datatype Handling = Handling(entry: nat, consumer: string, ok: bool)

  /**
   Entries are numbered by position. `inHand` is what a consumer has read and not yet handled; `handled` is
   history.
   */
  datatype Group = Group(
    entries: seq<Fields>, delivered: nat, pending: map<nat, string>, acked: set<nat>,
    inHand: map<string, seq<nat>>, handled: seq<Handling>)

  const EMPTY_GROUP := Group([], 0, map[], {}, map[], [])

  datatype Step =
    | Enqueue(msg: Message)
    | Read(consumer: string)
    | Handle(consumer: string, ok: bool, ackLost: bool)
    | Stop(consumer: string)

  function InHand(g: Group, consumer: string): seq<nat>
  {
    if consumer in g.inHand then g.inHand[consumer] else []
  }

  /** How far one read reaches. */
  function ReadTo(g: Group): (n: nat)
    requires g.delivered <= |g.entries|
    ensures g.delivered <= n <= |g.entries|
  {
    if g.delivered + BATCH <= |g.entries| then g.delivered + BATCH else |g.entries|
  }

  /** The entry numbers from lo up to, not including, hi. */
  function Span(lo: nat, hi: nat): (r: seq<nat>)
    requires lo <= hi
    ensures |r| == hi - lo && (forall i :: 0 <= i < |r| ==> r[i] == lo + i)
    ensures forall m :: m in r <==> lo <= m < hi
  {
    if lo == hi then [] else Span(lo, hi - 1) + [hi - 1]
  }

  function Next(g: Group, s: Step): (r: Group)
    requires g.delivered <= |g.entries|
    ensures r.delivered <= |r.entries| && g.entries <= r.entries
  {
    match s
    case Enqueue(msg) => g.(entries := g.entries + [Encode(msg)])
    case Read(c) =>
      if InHand(g, c) != [] then g
      else
        var n := ReadTo(g);
        g.(delivered := n,
           pending := g.pending + map m | m in Span(g.delivered, n) :: c,
           inHand := g.inHand[c := Span(g.delivered, n)])
    case Handle(c, ok, ackLost) =>
      if InHand(g, c) == [] then g
      else
        var m := InHand(g, c)[0];
        var g1 := g.(inHand := g.inHand[c := InHand(g, c)[1..]], handled := g.handled + [Handling(m, c, ok)]);
        if ok && !ackLost then g1.(pending := g1.pending - {m}, acked := g1.acked + {m}) else g1
    case Stop(c) => g.(inHand := g.inHand - {c})
  }

  /** A run of any consumers and producers. */
  function Run(g: Group, steps: seq<Step>): (r: Group)
    requires g.delivered <= |g.entries|
    ensures r.delivered <= |r.entries|
    decreases |steps|
  {
    if |steps| == 0 then g else Next(Run(g, steps[..|steps| - 1]), steps[|steps| - 1])
  }

  // ------------------------------------------------------------------ delivery

  predicate HandledEntry(g: Group, m: nat)
  {
    exists i :: 0 <= i < |g.handled| && g.handled[i].entry == m
  }

  predicate HandledOk(g: Group, m: nat)
  {
    exists i :: 0 <= i < |g.handled| && g.handled[i].entry == m && g.handled[i].ok
  }

  /** Conservation: an entry is undelivered, pending or acknowledged, and never two of these. */
  ghost predicate Conserved(g: Group)
  {
    && g.delivered <= |g.entries|
    && (forall m: nat :: m in g.pending || m in g.acked <==> m < g.delivered)
    && (forall m: nat :: !(m in g.pending && m in g.acked))
  }

  ghost predicate AtMostOnce(g: Group)
  {
    forall i, j :: 0 <= i < j < |g.handled| ==> g.handled[i].entry != g.handled[j].entry
  }

  /** What a consumer holds is pending in its name, in stream order, and has not been handled. */
  ghost predicate HoldsFresh(g: Group, c: string)
  {
    var h := InHand(g, c);
    && (forall i :: 0 <= i < |h| ==> h[i] in g.pending && g.pending[h[i]] == c && !HandledEntry(g, h[i]))
    && (forall i, j :: 0 <= i < j < |h| ==> h[i] < h[j])
  }

  ghost predicate Inv(g: Group)
  {
    && Conserved(g) && AtMostOnce(g)
    && (forall c :: HoldsFresh(g, c))
    && (forall m :: m in g.acked ==> HandledOk(g, m))
    && (forall i :: 0 <= i < |g.handled| ==> g.handled[i].entry < g.delivered)
  }

  lemma ReadKeepsInv(g: Group, c: string)
    requires Inv(g)
    ensures Inv(Next(g, Read(c)))
  {
    var g' := Next(g, Read(c));
    assert forall m :: HandledEntry(g', m) ==> HandledEntry(g, m);
    assert forall m :: HandledOk(g, m) ==> HandledOk(g', m);
    forall d ensures HoldsFresh(g', d) {
      assert HoldsFresh(g, d);
      forall i | 0 <= i < |InHand(g, d)| ensures InHand(g, d)[i] < g.delivered {
        assert InHand(g, d)[i] in g.pending;
      }
    }
  }

  /** Handling one entry leaves every consumer, this one included, with entries that nobody has handled. */
  lemma HandleKeepsHolding(g: Group, c: string, ok: bool, ackLost: bool, d: string)
    requires g.delivered <= |g.entries| && HoldsFresh(g, c) && HoldsFresh(g, d) && InHand(g, c) != []
    ensures HoldsFresh(Next(g, Handle(c, ok, ackLost)), d)
  {
    var g', m := Next(g, Handle(c, ok, ackLost)), InHand(g, c)[0];
    forall n | HandledEntry(g', n) && n != m ensures HandledEntry(g, n) {
      var i :| 0 <= i < |g'.handled| && g'.handled[i].entry == n;
      assert g.handled[i].entry == n;
    }
    if d == c {
      assert InHand(g', c) == InHand(g, c)[1..];
    }
  }

  lemma HandleKeepsInv(g: Group, c: string, ok: bool, ackLost: bool)
    requires Inv(g)
    ensures Inv(Next(g, Handle(c, ok, ackLost)))
  {
    var g' := Next(g, Handle(c, ok, ackLost));
    assert HoldsFresh(g, c);
    if InHand(g, c) != [] {
      var m := InHand(g, c)[0];
      assert g'.handled[|g.handled|] == Handling(m, c, ok);
      forall n | HandledOk(g, n) ensures HandledOk(g', n) {
        var i :| 0 <= i < |g.handled| && g.handled[i].entry == n && g.handled[i].ok;
        assert g'.handled[i] == g.handled[i];
      }
      forall d ensures HoldsFresh(g', d) {
        HandleKeepsHolding(g, c, ok, ackLost, d);
      }
      forall i | 0 <= i < |g.handled| ensures g.handled[i].entry != m {
        assert g.handled[i].entry == m ==> HandledEntry(g, m);
      }
    }
  }

  lemma NextKeepsInv(g: Group, s: Step)
    requires Inv(g)
    ensures Inv(Next(g, s))
  {
    var g' := Next(g, s);
    match s
    case Read(c) => ReadKeepsInv(g, c);
    case Handle(c, ok, ackLost) => HandleKeepsInv(g, c, ok, ackLost);
    case Enqueue(msg) =>
      forall m | HandledOk(g, m) ensures HandledOk(g', m) { }
      forall d ensures HoldsFresh(g', d) { assert HoldsFresh(g, d); }
    case Stop(c) =>
      forall m | HandledOk(g, m) ensures HandledOk(g', m) { }
      forall d ensures HoldsFresh(g', d) { assert HoldsFresh(g, d); }
  }

  lemma {:induction false} RunKeepsInv(g: Group, steps: seq<Step>)
    requires Inv(g)
    ensures Inv(Run(g, steps))
    decreases |steps|
  {
    if |steps| > 0 {
      RunKeepsInv(g, steps[..|steps| - 1]);
      NextKeepsInv(Run(g, steps[..|steps| - 1]), steps[|steps| - 1]);
    }
  }

  /** In every run: conservation, at most one handler call per entry, and acknowledgement only after success. */
  lemma EveryRunDelivers(steps: seq<Step>)
    ensures var g := Run(EMPTY_GROUP, steps);
      && Inv(g) && Conserved(g) && AtMostOnce(g)
      && forall m :: m in g.acked ==> HandledOk(g, m)
  {
    RunKeepsInv(EMPTY_GROUP, steps);
  }

  /** Success means acknowledged, failure means pending. */
  ghost predicate OutcomeKept(g: Group)
  {
    forall i :: 0 <= i < |g.handled| ==>
      if g.handled[i].ok then g.handled[i].entry in g.acked
      else g.handled[i].entry in g.pending && g.handled[i].entry !in g.acked
  }

  /** Without lost acknowledgements that holds in every run: what failed once stays pending for good. */
  lemma {:induction false} OutcomesStick(steps: seq<Step>)
    requires forall i :: 0 <= i < |steps| && steps[i].Handle? ==> !steps[i].ackLost
    ensures OutcomeKept(Run(EMPTY_GROUP, steps))
    decreases |steps|
  {
    if |steps| > 0 {
      var front, s := steps[..|steps| - 1], steps[|steps| - 1];
      var g := Run(EMPTY_GROUP, front);
      OutcomesStick(front);
      EveryRunDelivers(front);
      if s.Handle? && InHand(g, s.consumer) != [] {
        assert HoldsFresh(g, s.consumer);
        var m := InHand(g, s.consumer)[0];
        forall i | 0 <= i < |g.handled| ensures g.handled[i].entry != m {
          assert g.handled[i].entry == m ==> HandledEntry(g, m);
        }
      }
    }
  }

  /** A read by a consumer with nothing in hand takes the next entries, ten at most, in order and in its name. */
  lemma ReadTakesNext(g: Group, c: string)
    requires g.delivered <= |g.entries| && (c in g.inHand ==> g.inHand[c] == [])
    ensures var g' := Next(g, Read(c));
      var n := if |g.entries| - g.delivered < 10 then |g.entries| - g.delivered else 10;
      && g'.entries == g.entries && g'.acked == g.acked && g'.handled == g.handled
      && g'.delivered == g.delivered + n
      && c in g'.inHand && g'.inHand[c] == seq(n, i requires 0 <= i < n => g.delivered + i)
      && g'.inHand - {c} == g.inHand - {c}
      && (forall m: nat :: m in g'.pending <==> m in g.pending || g.delivered <= m < g.delivered + n)
      && (forall m: nat :: g.delivered <= m < g.delivered + n ==> g'.pending[m] == c)
  {
  }

  /** Handling takes the first entry in hand, and acknowledges it if that went well and is not lost. */
  lemma HandleMeans(g: Group, c: string, ok: bool, ackLost: bool)
    requires g.delivered <= |g.entries| && c in g.inHand && g.inHand[c] != []
    ensures var g', m := Next(g, Handle(c, ok, ackLost)), g.inHand[c][0];
      && g'.entries == g.entries && g'.delivered == g.delivered
      && g'.inHand == g.inHand[c := g.inHand[c][1..]]
      && g'.handled == g.handled + [Handling(m, c, ok)]
      && g'.acked == (if ok && !ackLost then g.acked + {m} else g.acked)
      && g'.pending == (if ok && !ackLost then g.pending - {m} else g.pending)
  {
  }

  /** A consumer that stops loses what it had in hand; the entries stay pending in its name. */
  lemma StopLosesHand(g: Group, c: string)
    requires g.delivered <= |g.entries|
    ensures Next(g, Stop(c)) == g.(inHand := g.inHand - {c}) && InHand(Next(g, Stop(c)), c) == []
  {
  }

  /** Of `all` entries read from g, n have been handled in g'. */
  ghost predicate AfterTurn(g: Group, g': Group, c: string, all: nat, n: nat, ok: nat -> bool, ackLost: nat -> bool)
  {
    && n <= all && g'.entries == g.entries && g'.delivered == g.delivered + all
    && c in g'.inHand && |g'.inHand[c]| == all - n
    && (forall i :: 0 <= i < all - n ==> g'.inHand[c][i] == g.delivered + n + i)
    && |g'.handled| == |g.handled| + n && g.handled <= g'.handled
    && (forall i :: 0 <= i < n ==> g'.handled[|g.handled| + i] == Handling(g.delivered + i, c, ok(i)))
    && (forall m: nat | m !in g.acked ::
        m in g'.acked <==> g.delivered <= m < g.delivered + n && ok(m - g.delivered) && !ackLost(m - g.delivered))
  }

  lemma OneMoreHandled(g: Group, g1: Group, g2: Group, c: string, all: nat, n: nat, ok: nat -> bool,
                       ackLost: nat -> bool)
    requires AfterTurn(g, g1, c, all, n, ok, ackLost) && n < all
    requires g2.entries == g1.entries && g2.delivered == g1.delivered && g2.inHand == g1.inHand[c := g1.inHand[c][1..]]
    requires g2.handled == g1.handled + [Handling(g1.inHand[c][0], c, ok(n))]
    requires g2.acked == if ok(n) && !ackLost(n) then g1.acked + {g1.inHand[c][0]} else g1.acked
    ensures AfterTurn(g, g2, c, all, n + 1, ok, ackLost)
  {
  }

  lemma HandleGoesOn(g: Group, g1: Group, c: string, all: nat, n: nat, ok: nat -> bool, ackLost: nat -> bool)
    requires 0 < n <= all && AfterTurn(g, g1, c, all, n - 1, ok, ackLost) && g1.delivered <= |g1.entries|
    ensures AfterTurn(g, Next(g1, Handle(c, ok(n - 1), ackLost(n - 1))), c, all, n, ok, ackLost)
  {
    HandleMeans(g1, c, ok(n - 1), ackLost(n - 1));
    OneMoreHandled(g, g1, Next(g1, Handle(c, ok(n - 1), ackLost(n - 1))), c, all, n - 1, ok, ackLost);
  }

  // ------------------------------------------------------------------ the consumer loop

  class RedisStreamQueue {
    var group: Group

    constructor ()
      ensures group == EMPTY_GROUP
    {
      group := EMPTY_GROUP;
    }

    /** XADD fails without effect, and the caller learns of it. */
    method EnqueueMessage(msg: Message, fails: bool) returns (ok: bool)
      requires group.delivered <= |group.entries|
      modifies this
      ensures ok == !fails
      ensures group == if ok then Next(old(group), Enqueue(msg)) else old(group)
      ensures !ok ==> group == old(group)
      ensures ok ==>
        var fields :=
          map["entity" := Str(msg.entity), "operation" := Str(msg.operation), "payload" := Str(msg.payload)];
        group == old(group).(entries := old(group).entries +
          [if msg.retryCount > 0 then fields["retry_count" := Str(Itoa(msg.retryCount))] else fields])
    {
      var values: Fields := map["entity" := Str(msg.entity)];
      values := values["operation" := Str(msg.operation)];
      values := values["payload" := Str(msg.payload)];
      if msg.retryCount > 0 { values := values["retry_count" := Str(Itoa(msg.retryCount))]; }
      assert values == Encode(msg);
      if fails { return false; }
      group := group.(entries := group.entries + [values]);
      ok := true;
    }

    /** The steps of one turn of Consume: one read, then one Handle per entry read. */
    ghost function Turn(consumer: string, n: nat, ok: nat -> bool, ackLost: nat -> bool): seq<Step>
    {
      if n == 0 then [Read(consumer)]
      else Turn(consumer, n - 1, ok, ackLost) + [Handle(consumer, ok(n - 1), ackLost(n - 1))]
    }

    lemma TurnStep(g: Group, consumer: string, n: nat, ok: nat -> bool, ackLost: nat -> bool)
      requires g.delivered <= |g.entries|
      ensures Run(g, Turn(consumer, n + 1, ok, ackLost)) ==
        Next(Run(g, Turn(consumer, n, ok, ackLost)), Handle(consumer, ok(n), ackLost(n)))
    {
      var t := Turn(consumer, n + 1, ok, ackLost);
      assert t[..|t| - 1] == Turn(consumer, n, ok, ackLost);
    }

    lemma TurnBegins(g: Group, c: string, all: nat, ok: nat -> bool, ackLost: nat -> bool)
      requires g.delivered <= |g.entries| && InHand(g, c) == []
      requires all == if |g.entries| - g.delivered < 10 then |g.entries| - g.delivered else 10
      ensures AfterTurn(g, Run(g, Turn(c, 0, ok, ackLost)), c, all, 0, ok, ackLost)
    {
      assert [Read(c)][..0] == [];
      ReadTakesNext(g, c);
    }

    lemma {:induction false} TurnLeaves(g: Group, c: string, all: nat, n: nat, ok: nat -> bool, ackLost: nat -> bool)
      requires g.delivered <= |g.entries| && InHand(g, c) == []
      requires all == (if |g.entries| - g.delivered < 10 then |g.entries| - g.delivered else 10) && n <= all
      ensures AfterTurn(g, Run(g, Turn(c, n, ok, ackLost)), c, all, n, ok, ackLost)
      decreases n
    {
      if n == 0 {
        TurnBegins(g, c, all, ok, ackLost);
      } else {
        TurnLeaves(g, c, all, n - 1, ok, ackLost);
        var g1 := Run(g, Turn(c, n - 1, ok, ackLost));
        HandleGoesOn(g, g1, c, all, n, ok, ackLost);
        TurnStep(g, c, n - 1, ok, ackLost);
        assert Run(g, Turn(c, n, ok, ackLost)) == Next(g1, Handle(c, ok(n - 1), ackLost(n - 1)));
      }
    }

    /**
     What a whole turn leaves: the entries read are handled once each, in order, and acknowledged exactly where the
     handler succeeded and the acknowledgement was not lost.
     */
    lemma TurnMeans(g: Group, c: string, n: nat, ok: nat -> bool, ackLost: nat -> bool)
      requires g.delivered <= |g.entries| && InHand(g, c) == []
      requires n == if |g.entries| - g.delivered < 10 then |g.entries| - g.delivered else 10
      ensures n == ReadTo(g) - g.delivered
      ensures var g' := Run(g, Turn(c, n, ok, ackLost));
        && g'.entries == g.entries && g'.delivered == g.delivered + n && InHand(g', c) == []
        && |g'.handled| == |g.handled| + n && g.handled <= g'.handled
        && (forall i :: 0 <= i < n ==> g'.handled[|g.handled| + i] == Handling(g.delivered + i, c, ok(i)))
        && (forall m: nat | m !in g.acked ::
            m in g'.acked <==> g.delivered <= m < g.delivered + n && ok(m - g.delivered) && !ackLost(m - g.delivered))
    {
      TurnLeaves(g, c, n, n, ok, ackLost);
      assert AfterTurn(g, Run(g, Turn(c, n, ok, ackLost)), c, n, n, ok, ackLost);
    }

    /** Hand the consumer's next entry to the handler and acknowledge it if that succeeded. */
    method HandleNext(consumer: string, ok: bool, ackLost: bool)
      requires group.delivered <= |group.entries| && InHand(group, consumer) != []
      modifies this
      ensures group == Next(old(group), Handle(consumer, ok, ackLost))
      ensures InHand(group, consumer) == InHand(old(group), consumer)[1..]
    {
      var m := InHand(group, consumer)[0];
      group := group.(inHand := group.inHand[consumer := InHand(group, consumer)[1..]],
                      handled := group.handled + [Handling(m, consumer, ok)]);
      if ok && !ackLost {
        group := group.(pending := group.pending - {m}, acked := group.acked + {m});
      }
    }

    /** One turn of the loop of Consume, when no other consumer steps in between. */
    method ConsumeTurn(consumer: string, ok: nat -> bool, ackLost: nat -> bool) returns (n: nat)
      requires group.delivered <= |group.entries| && InHand(group, consumer) == []
      modifies this
      ensures group.delivered <= |group.entries| && InHand(group, consumer) == []
      ensures n == ReadTo(old(group)) - old(group).delivered
      ensures group == Run(old(group), Turn(consumer, n, ok, ackLost))
    {
      ghost var start := group;
      group := Next(group, Read(consumer));
      assert [Read(consumer)][..0] == [];
      n := 0;
      while InHand(group, consumer) != []
        invariant group.delivered <= |group.entries| && group == Run(start, Turn(consumer, n, ok, ackLost))
        invariant n + |InHand(group, consumer)| == ReadTo(start) - start.delivered
        decreases |InHand(group, consumer)|
      {
        HandleNext(consumer, ok(n), ackLost(n));
        TurnStep(start, consumer, n, ok, ackLost);
        n := n + 1;
      }
    }
  }
}
