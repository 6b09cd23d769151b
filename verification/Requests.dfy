/**
 From what was requested to what is on the books: every payment row, and so every
 charge in the ledger, is of one request to create a payment.
 */
module Requests {
  import opened Prelude
  import L = Ledger
  import M = StripeMapping
  import P = Payments
  import W = Webhook
  import C = Confluence
  import R = Reconciliation
  import opened Books

  /** The step asks to create this payment. */
  predicate Asks(step: Step, i: string, row: P.PaymentRow) {
    step == Create(row.id, row.userId, row.key, i, row.amount, row.currency)
  }

  /**
   Step `n` of the run asked for the payment with figures the table admits, and neither
   its intent nor its key had a row by then.
   */
  ghost predicate RequestedAt(steps: seq<Step>, n: int, i: string, row: P.PaymentRow) {
    && 0 <= n < |steps| && Asks(steps[n], i, row) && row.amount > 0 && |row.currency| == 3
    && i !in After(steps[..n]).db.rows
    && forall j :: j in After(steps[..n]).db.rows ==> After(steps[..n]).db.rows[j].key != row.key
  }

  /** Status and event time aside. */
  predicate SamePayment(a: P.PaymentRow, b: P.PaymentRow) {
    a.(status := b.status, lastAt := b.lastAt) == b
  }

  /** A step either asks for the payment's row, or finds it there with the same figures. */
  lemma StepKeepsFigures(s: State, step: Step, i: string)
    requires Agree(s) && i in Next(s, step).db.rows
    ensures if i in s.db.rows then SamePayment(Next(s, step).db.rows[i], s.db.rows[i])
            else Asks(step, i, Next(s, step).db.rows[i])
                 && Next(s, step).db.rows[i].amount > 0 && |Next(s, step).db.rows[i].currency| == 3
                 && forall j :: j in s.db.rows ==> s.db.rows[j].key != Next(s, step).db.rows[i].key
  {
    hide P.RecordCreated, W.Deliver, R.Reconcile, L.Integrity, L.Shaped, L.BookOf;
    match step {
      case Create(id, userId, key, intent, amount, currency) =>
        P.CreatedIff(s.db.rows, s.keys, id, userId, key, intent, amount, currency);
      case Deliver(e) => DeliveryKeepsFigures(s.db, e, i);
      case Reconcile(ss) =>
    }
  }

  lemma DeliveryKeepsFigures(db: W.Db, e: M.StripeEvent, i: string)
    ensures W.Deliver(db, e).1.rows.Keys == db.rows.Keys
    ensures i in db.rows ==> SamePayment(W.Deliver(db, e).1.rows[i], db.rows[i])
  {
    hide M.KindByType, M.LedgerKindByType, L.Post, L.Template;
    if i in db.rows {
      C.PlanRow(db.rows, e, i);
    }
    C.PlanKeepsKeys(db.rows, e);
  }

  /** In every reachable state, every payment row is of the request that first opened it, figure for figure. */
  lemma {:induction false} RowsAreOfRequests(steps: seq<Step>, i: string)
    requires i in After(steps).db.rows
    ensures exists n, row :: RequestedAt(steps, n, i, row) && SamePayment(After(steps).db.rows[i], row)
    decreases |steps|
  {
    hide Agree, Next;
    if steps == [] {
      assert false by { NothingAtFirst(); }
    } else {
      var k := |steps| - 1;
      var before := steps[..k];
      AlwaysAgree(before);
      StepKeepsFigures(After(before), steps[k], i);
      var now := After(steps).db.rows[i];
      if i in After(before).db.rows {
        RowsAreOfRequests(before, i);
        var n, row :| RequestedAt(before, n, i, row) && SamePayment(After(before).db.rows[i], row);
        assert before[..n] == steps[..n] && before[n] == steps[n];
        assert RequestedAt(steps, n, i, row) && SamePayment(now, row);
      } else {
        assert RequestedAt(steps, k, i, now) && SamePayment(now, now);
      }
    }
  }

  lemma NothingAtFirst()
    ensures After([]).db.rows == map[]
  {
  }

  /** A request the table admits, for an intent and a key without a row, opens the payment as asked. */
  lemma RequestOpens(steps: seq<Step>, n: nat, i: string, row: P.PaymentRow)
    requires RequestedAt(steps, n, i, row)
    ensures i in After(steps[..n + 1]).db.rows
    ensures After(steps[..n + 1]).db.rows[i] == row.(status := P.Created, lastAt := None)
  {
    hide P.RecordCreated, Agree, Next;
    AlwaysAgree(steps[..n]);
    var s := After(steps[..n]);
    KeysAreRows(s, row.key);
    P.CreatedIff(s.db.rows, s.keys, row.id, row.userId, row.key, i, row.amount, row.currency);
    assert steps[..n + 1][..n] == steps[..n] && steps[..n + 1][n] == steps[n];
    CreateStep(s, row.id, row.userId, row.key, i, row.amount, row.currency);
  }

  lemma KeysAreRows(s: State, key: string)
    requires Agree(s)
    ensures key in s.keys ==> exists j :: j in s.db.rows && s.db.rows[j].key == key
  {
    if key in s.keys {
      assert s.db.rows[s.keys[key]].key == key;
    }
  }

  lemma CreateStep(s: State, id: string, userId: string, key: string, i: string, amount: int, currency: string)
    ensures Next(s, Create(id, userId, key, i, amount, currency)).db.rows
         == P.RecordCreated(s.db.rows, s.keys, id, userId, key, i, amount, currency).1
  {
    hide P.RecordCreated;
  }

  /** So every charge in the ledger is of the amount and in the currency that was requested. */
  lemma ChargesAreOfRequests(steps: seq<Step>, id: nat, i: string)
    requires id < |After(steps).db.ledger.entries| && After(steps).db.ledger.entries[id].key == L.Key(L.Charge, i)
    ensures exists n, row ::
              && RequestedAt(steps, n, i, row)
              && After(steps).db.ledger.entries[id].currency == row.currency
              && L.PostingsOf(After(steps).db.ledger.postings, id)
                 == [L.Posting(L.StripeReceivable, row.amount), L.Posting(L.Revenue, -row.amount)]
  {
    hide Agree, Next, RequestedAt;
    AlwaysAgree(steps);
    SucceededIffCharged(After(steps), i);
    RowsAreOfRequests(steps, i);
    var n, row :| RequestedAt(steps, n, i, row) && SamePayment(After(steps).db.rows[i], row);
  }
}
