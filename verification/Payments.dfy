/** Payment rows, their status machine, and the refund rows kept beside them. */
module Payments {
  import opened Prelude
  import M = StripeMapping

  datatype PaymentStatus = Created | Processing | Succeeded | Failed | Canceled

  datatype PaymentRow = PaymentRow(id: string, userId: string, key: string, amount: int,
                                   currency: string, status: PaymentStatus, lastAt: Option<int>)

  /** The payments, by the unique provider intent id. */
  type Rows = map<string, PaymentRow>

  datatype ApplyOutcome = Applied | IgnoredStale | IgnoredTerminal | UnknownIntent

  datatype CreateOutcome = Inserted | Existing(intent: string) | CreateRaised

  function StatusOf(k: M.PaymentEventKind): PaymentStatus {
    match k
    case Processing => Processing
    case Succeeded => Succeeded
    case Failed => Failed
    case Canceled => Canceled
  }

  predicate Terminal(s: PaymentStatus) {
    s == Succeeded || s == Failed || s == Canceled
  }

  function ApplyEvent(rows: Rows, e: M.PaymentEvent): (ApplyOutcome, Rows) {
    if e.intent !in rows then
      (UnknownIntent, rows)
    else
      var p := rows[e.intent];
      if Terminal(p.status) then
        (IgnoredTerminal, rows)
      else if p.lastAt.Some? && p.lastAt.value > e.at then
        (IgnoredStale, rows)
      else
        (Applied, rows[e.intent := p.(status := StatusOf(e.kind), lastAt := Some(e.at))])
  }

  /** The column checks on a payment row. */
  predicate RowAllowed(amount: int, currency: string) {
    amount > 0 && |currency| == 3
  }

  /** One idempotency key is one row: `keys` is the unique index on it. */
  predicate Indexed(rows: Rows, keys: map<string, string>) {
    && (forall k :: k in keys ==> keys[k] in rows && rows[keys[k]].key == k)
    && (forall i :: i in rows ==> rows[i].key in keys && keys[rows[i].key] == i)
  }

  function RecordCreated(rows: Rows, keys: map<string, string>, id: string, userId: string,
                         key: string, intent: string, amount: int, currency: string)
    : (CreateOutcome, Rows, map<string, string>)
  {
    if !RowAllowed(amount, currency) then
      (CreateRaised, rows, keys)
    else if key in keys then
      (Existing(keys[key]), rows, keys)
    else if intent in rows then
      (CreateRaised, rows, keys)
    else
      (Inserted, rows[intent := PaymentRow(id, userId, key, amount, currency, Created, None)],
       keys[key := intent])
  }

  /** A retried create returns the first row, and the pair of indexes stays consistent. */
  lemma CreateOnce(rows: Rows, keys: map<string, string>, id: string, userId: string, key: string,
                   intent: string, amount: int, currency: string, id2: string, intent2: string, amount2: int)
    requires Indexed(rows, keys) && RowAllowed(amount2, currency)
    ensures var first := RecordCreated(rows, keys, id, userId, key, intent, amount, currency);
            && Indexed(first.1, first.2)
            && (first.0 != CreateRaised ==>
                  var again := RecordCreated(first.1, first.2, id2, userId, key, intent2, amount2, currency);
                  && again.0 == Existing(first.2[key]) && first.2[key] in first.1
                  && again.1 == first.1 && again.2 == first.2)
  {
  }

  /**
   What an event does to a payment, from its row and the event alone: only a waiting
   payment moves, only by an event no older than the last, and it takes the status of
   the event's kind and the event's time.
   */
  lemma AppliedIff(rows: Rows, e: M.PaymentEvent)
    ensures var (outcome, rows') := ApplyEvent(rows, e);
            var i := e.intent;
            && (outcome == UnknownIntent <==> i !in rows)
            && (outcome == IgnoredTerminal <==> i in rows && rows[i].status in {Succeeded, Failed, Canceled})
            && (outcome == IgnoredStale <==>
                  i in rows && rows[i].status in {Created, Processing}
                  && rows[i].lastAt.Some? && e.at < rows[i].lastAt.value)
            && (outcome != Applied ==> rows' == rows)
            && (outcome == Applied ==>
                  && rows'.Keys == rows.Keys && (forall j :: j in rows && j != i ==> rows'[j] == rows[j])
                  && rows'[i].lastAt == Some(e.at)
                  && rows'[i].(status := rows[i].status, lastAt := rows[i].lastAt) == rows[i]
                  && (rows'[i].status == Processing <==> e.kind == M.Processing)
                  && (rows'[i].status == Succeeded <==> e.kind == M.Succeeded)
                  && (rows'[i].status == Failed <==> e.kind == M.Failed)
                  && (rows'[i].status == Canceled <==> e.kind == M.Canceled))
  {
  }

  /**
   When a create inserts, finds the key, or throws, and the row it inserts: the
   request's own figures, waiting, with no event seen.
   */
  lemma CreatedIff(rows: Rows, keys: map<string, string>, id: string, userId: string, key: string, intent: string,
                   amount: int, currency: string)
    ensures var (outcome, rows', keys') := RecordCreated(rows, keys, id, userId, key, intent, amount, currency);
            && (outcome == CreateRaised <==> amount <= 0 || |currency| != 3 || (key !in keys && intent in rows))
            && (outcome.Existing? <==> amount > 0 && |currency| == 3 && key in keys)
            && (outcome.Existing? ==> outcome.intent == keys[key])
            && (outcome != Inserted ==> rows' == rows && keys' == keys)
            && (outcome == Inserted ==>
                  && intent !in rows && rows'.Keys == rows.Keys + {intent} && keys' == keys[key := intent]
                  && (forall j :: j in rows ==> rows'[j] == rows[j])
                  && rows'[intent].id == id && rows'[intent].userId == userId && rows'[intent].key == key
                  && rows'[intent].amount == amount && rows'[intent].currency == currency
                  && rows'[intent].status == Created && rows'[intent].lastAt == None)
  {
  }

  /** A settled payment never moves again, and no application ever returns a row to `Created`. */
  lemma TerminalIsFinal(rows: Rows, e: M.PaymentEvent, i: string)
    requires i in rows
    ensures i in ApplyEvent(rows, e).1
    ensures Terminal(rows[i].status) ==> ApplyEvent(rows, e).1[i] == rows[i]
    ensures ApplyEvent(rows, e).1[i].status == Created ==> ApplyEvent(rows, e).1[i] == rows[i]
  {
  }

  // --------------------------------------------------------------- refunds

  datatype RefundRow = RefundRow(paymentId: string, key: string, amount: int,
                                 providerRefundId: string, createdBy: string)

  function RefundedTotal(refunds: seq<RefundRow>, paymentId: string): int {
    if refunds == [] then
      0
    else
      var last := refunds[|refunds| - 1];
      RefundedTotal(refunds[..|refunds| - 1], paymentId)
      + if last.paymentId == paymentId then last.amount else 0
  }

  function FindRefundByKey(refunds: seq<RefundRow>, key: string): Option<int> {
    if refunds == [] then
      None
    else if refunds[0].key == key then
      Some(refunds[0].amount)
    else
      FindRefundByKey(refunds[1..], key)
  }

  lemma {:induction false} FindRefund(refunds: seq<RefundRow>, key: string)
    ensures FindRefundByKey(refunds, key).None? <==> forall i :: 0 <= i < |refunds| ==> refunds[i].key != key
    ensures FindRefundByKey(refunds, key).Some? ==>
              exists i :: 0 <= i < |refunds| && refunds[i].key == key
                          && refunds[i].amount == FindRefundByKey(refunds, key).value
  {
    if refunds != [] && refunds[0].key != key {
      FindRefund(refunds[1..], key);
      forall i | 0 <= i < |refunds| && FindRefundByKey(refunds, key).None? ensures refunds[i].key != key {
        if i > 0 {
          assert refunds[i] == refunds[1..][i - 1];
        }
      }
      if FindRefundByKey(refunds, key).Some? {
        var j :| 0 <= j < |refunds[1..]| && refunds[1..][j].key == key
                 && refunds[1..][j].amount == FindRefundByKey(refunds, key).value;
        assert refunds[j + 1] == refunds[1..][j];
      }
    }
  }

  /** The insert of a refund row: a taken key changes nothing; a bad amount throws. */
  function RecordRefund(refunds: seq<RefundRow>, row: RefundRow): (bool, seq<RefundRow>) {
    if row.amount <= 0 then (false, refunds)
    else if FindRefundByKey(refunds, row.key).Some? then (true, refunds)
    else (true, refunds + [row])
  }

  /** When the insert of a refund row throws, finds its key taken, or appends the row as it is. */
  lemma RefundRecordedIff(refunds: seq<RefundRow>, row: RefundRow)
    ensures var (ok, refunds') := RecordRefund(refunds, row);
            && (ok <==> row.amount > 0)
            && (refunds' == refunds || refunds' == refunds + [row])
            && (refunds' != refunds <==> row.amount > 0 && forall i :: 0 <= i < |refunds| ==> refunds[i].key != row.key)
  {
    FindRefund(refunds, row.key);
  }

  // ------------------------------------------------------------ the handle

  class Store {
    var rows: Rows
    var keys: map<string, string>
    var refunds: seq<RefundRow>

    constructor ()
      ensures rows == map[] && keys == map[] && refunds == []
    {
      rows, keys, refunds := map[], map[], [];
    }

    method ApplyPaymentEvent(e: M.PaymentEvent) returns (outcome: ApplyOutcome)
      modifies `rows
      ensures (outcome, rows) == ApplyEvent(old(rows), e)
    {
      if e.intent !in rows {
        return UnknownIntent;
      }
      var payment := rows[e.intent];
      if Terminal(payment.status) {
        return IgnoredTerminal;
      }
      if payment.lastAt.Some? && payment.lastAt.value > e.at {
        return IgnoredStale;
      }
      rows := rows[e.intent := payment.(status := StatusOf(e.kind), lastAt := Some(e.at))];
      outcome := Applied;
    }

    method RecordCreatedPayment(id: string, userId: string, key: string, intent: string, amount: int,
                                currency: string) returns (outcome: CreateOutcome)
      requires Indexed(rows, keys)
      modifies `rows, `keys
      ensures (outcome, rows, keys)
           == RecordCreated(old(rows), old(keys), id, userId, key, intent, amount, currency)
      ensures Indexed(rows, keys)
    {
      if amount <= 0 || |currency| != 3 {
        return CreateRaised;
      }
      if key in keys {
        return Existing(keys[key]);
      }
      if intent in rows {
        return CreateRaised;
      }
      rows := rows[intent := PaymentRow(id, userId, key, amount, currency, Created, None)];
      keys := keys[key := intent];
      outcome := Inserted;
    }

    method RecordRefundRow(row: RefundRow) returns (ok: bool)
      modifies `refunds
      ensures (ok, refunds) == RecordRefund(old(refunds), row)
    {
      if row.amount <= 0 {
        return false;
      }
      if FindRefundByKey(refunds, row.key).None? {
        refunds := refunds + [row];
      }
      ok := true;
    }
  }
}
