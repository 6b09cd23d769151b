/** The webhook inbox: claim the event id, apply the event, post to the ledger, in one transaction. */
module Webhook {
  import opened Prelude
  import L = Ledger
  import M = StripeMapping
  import P = Payments

  datatype InboxStatus = Processed | Unhandled | Unmatched

  datatype InboxRow = InboxRow(typ: string, status: InboxStatus, payload: M.StripeEvent)

  /** The tables one webhook transaction reads and writes. */
  datatype Db = Db(rows: P.Rows, inbox: map<string, InboxRow>, ledger: L.Tables)

  /** The same tables with the ledger in its keyed form. */
  datatype View = View(rows: P.Rows, inbox: map<string, InboxRow>, book: L.Book)

  datatype Draft = Draft(key: L.Key, entry: L.Entry)

  /** What an unclaimed event asks for: its inbox status, the payment rows, and an entry to post. */
  datatype Effect = Effect(status: InboxStatus, rows: P.Rows, draft: Option<Draft>)

  function ChargeDraft(intent: string, p: P.PaymentRow): Draft {
    Draft(L.Key(L.Charge, intent), L.Entry(p.currency, L.Template(L.Charge, p.amount)))
  }

  function LedgerDraft(e: M.LedgerEvent): Draft {
    Draft(L.Key(e.kind, e.reference), L.Entry(e.currency, L.Template(e.kind, e.amount)))
  }

  function Plan(rows: P.Rows, e: M.StripeEvent): Effect {
    match M.MapStripeEvent(e)
    case Some(pe) =>
      var (outcome, rows') := P.ApplyEvent(rows, pe);
      if outcome == P.UnknownIntent then
        Effect(Unmatched, rows, None)
      else if outcome == P.Applied && pe.kind == M.Succeeded then
        Effect(Processed, rows', Some(ChargeDraft(pe.intent, rows'[pe.intent])))
      else
        Effect(Processed, rows', None)
    case None =>
      match M.MapLedgerEvent(e)
      case Some(le) => Effect(Processed, rows, Some(LedgerDraft(le)))
      case None => Effect(Unhandled, rows, None)
  }

  /** One delivery. The flag is false when the transaction threw and was rolled back. */
  function Deliver(db: Db, e: M.StripeEvent): (bool, Db) {
    if e.id in db.inbox then
      (true, db)
    else
      var p := Plan(db.rows, e);
      var inbox := db.inbox[e.id := InboxRow(e.typ, p.status, e)];
      match p.draft
      case None => (true, Db(p.rows, inbox, db.ledger))
      case Some(d) =>
        var (r, ledger) := L.Post(db.ledger, d.key, d.entry);
        if r == L.Raised then (false, db) else (true, Db(p.rows, inbox, ledger))
  }

  function DeliverView(v: View, e: M.StripeEvent): (bool, View) {
    if e.id in v.inbox then
      (true, v)
    else
      var p := Plan(v.rows, e);
      var inbox := v.inbox[e.id := InboxRow(e.typ, p.status, e)];
      match p.draft
      case None => (true, View(p.rows, inbox, v.book))
      case Some(d) =>
        var (r, book) := L.PostBook(v.book, d.key, d.entry);
        if r == L.Raised then (false, v) else (true, View(p.rows, inbox, book))
  }

  function ViewOf(db: Db): View {
    View(db.rows, db.inbox, L.BookOf(db.ledger))
  }

  function DeliverAll(db: Db, es: seq<M.StripeEvent>): Db {
    if es == [] then db else Deliver(DeliverAll(db, es[..|es| - 1]), es[|es| - 1]).1
  }

  function DeliverAllView(v: View, es: seq<M.StripeEvent>): View {
    if es == [] then v else DeliverView(DeliverAllView(v, es[..|es| - 1]), es[|es| - 1]).1
  }

  /** The tables refine the keyed view, and keep the ledger's integrity. */
  lemma DeliverRefines(db: Db, e: M.StripeEvent)
    requires L.Integrity(db.ledger)
    ensures DeliverView(ViewOf(db), e) == (Deliver(db, e).0, ViewOf(Deliver(db, e).1))
    ensures L.Integrity(Deliver(db, e).1.ledger)
  {
    var p := Plan(db.rows, e);
    if e.id !in db.inbox && p.draft.Some? {
      L.PostRefines(db.ledger, p.draft.value.key, p.draft.value.entry);
      L.PostKeepsIntegrity(db.ledger, p.draft.value.key, p.draft.value.entry);
    }
  }

  lemma {:induction false} DeliverAllRefines(db: Db, es: seq<M.StripeEvent>)
    requires L.Integrity(db.ledger)
    ensures ViewOf(DeliverAll(db, es)) == DeliverAllView(ViewOf(db), es)
    ensures L.Integrity(DeliverAll(db, es).ledger)
    decreases |es|
  {
    if es != [] {
      var n := |es| - 1;
      DeliverAllRefines(db, es[..n]);
      DeliverRefines(DeliverAll(db, es[..n]), es[n]);
    }
  }

  /** A replay changes nothing; a delivery that threw left nothing, so its retry is a first delivery. */
  lemma ReplayAndRetry(db: Db, e: M.StripeEvent)
    ensures Deliver(db, e).0 ==> Deliver(Deliver(db, e).1, e) == (true, Deliver(db, e).1)
    ensures !Deliver(db, e).0 ==> Deliver(db, e).1 == db
    ensures Deliver(db, e).0 <==> e.id in Deliver(db, e).1.inbox
  {
  }

  /** The inbox after an event was taken in with a status. */
  function Taken(v: View, e: M.StripeEvent, status: InboxStatus): map<string, InboxRow> {
    v.inbox[e.id := InboxRow(e.typ, status, e)]
  }

  /** A freshly created payment under each kind of status event, from event type to posted entry. */
  lemma StatusByType(v: View, e: M.StripeEvent)
    requires e.id !in v.inbox && e.objectId in v.rows && L.Key(L.Charge, e.objectId) !in v.book
    requires v.rows[e.objectId].status == P.Created && v.rows[e.objectId].lastAt == None
    requires P.RowAllowed(v.rows[e.objectId].amount, v.rows[e.objectId].currency)
    ensures var (ok, w) := DeliverView(v, e);
            var row, i := v.rows[e.objectId], e.objectId;
            && (e.typ == "payment_intent.succeeded" ==>
                  && ok && w.rows == v.rows[i := row.(status := P.Succeeded, lastAt := Some(e.created * 1000))]
                  && w.inbox == Taken(v, e, Processed)
                  && w.book == v.book[L.Key(L.Charge, i) := L.Entry(row.currency,
                       [L.Posting(L.StripeReceivable, row.amount), L.Posting(L.Revenue, -row.amount)])])
            && (e.typ == "payment_intent.processing" ==> ok && w == OnlyStatus(v, e, P.Processing))
            && (e.typ == "payment_intent.payment_failed" ==> ok && w == OnlyStatus(v, e, P.Failed))
            && (e.typ == "payment_intent.canceled" ==> ok && w == OnlyStatus(v, e, P.Canceled))
  {
    L.TemplateBalances(L.Charge, v.rows[e.objectId].amount);
  }

  /** The view with the event taken in and its payment at a status, and nothing posted. */
  function OnlyStatus(v: View, e: M.StripeEvent, status: P.PaymentStatus): View
    requires e.objectId in v.rows
  {
    View(v.rows[e.objectId := v.rows[e.objectId].(status := status, lastAt := Some(e.created * 1000))],
         Taken(v, e, Processed), v.book)
  }

  /**
   A status event for an intent without a row is unmatched; one that is late for its
   payment is taken in and moves nothing.
   */
  lemma StatusIgnored(v: View, e: M.StripeEvent)
    requires e.id !in v.inbox && M.KindByType(e.typ).Some?
    ensures e.objectId !in v.rows ==> DeliverView(v, e) == (true, v.(inbox := Taken(v, e, Unmatched)))
    ensures e.objectId in v.rows
            && (v.rows[e.objectId].status in {P.Succeeded, P.Failed, P.Canceled}
                || (v.rows[e.objectId].lastAt.Some? && e.created * 1000 < v.rows[e.objectId].lastAt.value)) ==>
              DeliverView(v, e) == (true, v.(inbox := Taken(v, e, Processed)))
  {
    hide M.KindByType;
  }

  /**
   Money going out, from event type to posted entry, or only its inbox row when the
   reference is on the books; a malformed currency throws, and a type nobody handles
   only leaves its inbox row.
   */
  lemma MoneyOutByType(v: View, e: M.StripeEvent)
    requires e.id !in v.inbox
    ensures e.typ == "refund.created" ==> DeliverView(v, e) == PaidOut(v, e, L.Refund, L.Refunds)
    ensures e.typ == "charge.dispute.created" ==> DeliverView(v, e) == PaidOut(v, e, L.Dispute, L.Disputes)
    ensures M.KindByType(e.typ).None? && e.typ != "refund.created" && e.typ != "charge.dispute.created" ==>
              DeliverView(v, e) == (true, v.(inbox := Taken(v, e, Unhandled)))
  {
    L.TemplateBalances(L.Refund, e.amount);
    L.TemplateBalances(L.Dispute, e.amount);
  }

  function PaidOut(v: View, e: M.StripeEvent, kind: L.EntryKind, expense: L.Account): (bool, View) {
    var k := L.Key(kind, e.objectId);
    var entry := L.Entry(e.currency, [L.Posting(expense, e.amount), L.Posting(L.StripeReceivable, -e.amount)]);
    if |e.currency| != 3 then (false, v)
    else (true, View(v.rows, Taken(v, e, Processed), if k in v.book then v.book else v.book[k := entry]))
  }

  class Handler {
    const payments: P.Store
    const ledger: L.Store
    var inbox: map<string, InboxRow>

    function State(): Db
      reads this, payments, ledger
    {
      Db(payments.rows, inbox, ledger.Contents())
    }

    constructor (payments: P.Store, ledger: L.Store)
      ensures this.payments == payments && this.ledger == ledger && inbox == map[]
    {
      this.payments, this.ledger, inbox := payments, ledger, map[];
    }

    /** Claims and processes the event; any throw restores every table. */
    method Receive(e: M.StripeEvent) returns (ok: bool)
      modifies this`inbox, payments`rows, ledger
      ensures (ok, State()) == Deliver(old(State()), e)
    {
      hide M.KindByType, M.LedgerKindByType, L.Imbalance, L.HasKey;
      M.MapsExclusive(e.typ);
      var internal := M.MapStripeEvent(e);
      var ledgerEvent := M.MapLedgerEvent(e);
      if e.id in inbox {
        return true;
      }
      var before := State();
      var status := if internal.Some? || ledgerEvent.Some? then Processed else Unhandled;
      inbox := inbox[e.id := InboxRow(e.typ, status, e)];
      var posted := L.Duplicate;
      if internal.Some? {
        var pe := internal.value;
        var outcome := payments.ApplyPaymentEvent(pe);
        if outcome == P.UnknownIntent {
          inbox := inbox[e.id := inbox[e.id].(status := Unmatched)];
          assert inbox == before.inbox[e.id := InboxRow(e.typ, Unmatched, e)];
        } else if outcome == P.Applied && pe.kind == M.Succeeded {
          var payment := payments.rows[pe.intent];
          posted := ledger.PostCharge(pe.intent, payment.amount, payment.currency);
        }
      }
      if ledgerEvent.Some? && posted != L.Raised {
        var le := ledgerEvent.value;
        posted := ledger.ApplyLedgerEvent(le.kind, le.reference, le.amount, le.currency);
      }
      ok := posted != L.Raised;
      if !ok {
        payments.rows, inbox := before.rows, before.inbox;
        ledger.entries, ledger.postings := before.ledger.entries, before.ledger.postings;
      }
    }
  }
}
