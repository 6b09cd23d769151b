/**
 The payment rows and the ledger, in every state that creating payments,
 delivering webhooks and reconciling can reach. Each step is one atomic
 transaction (or, for reconciliation, any prefix of its transactions).
 */
module Books {
  import opened Prelude
  import L = Ledger
  import M = StripeMapping
  import P = Payments
  import W = Webhook
  import C = Confluence
  import R = Reconciliation

  datatype State = State(db: W.Db, keys: map<string, string>)

  datatype Step =
    | Create(id: string, userId: string, key: string, intent: string, amount: int, currency: string)
    | Deliver(event: M.StripeEvent)
    | Reconcile(settlements: seq<M.Settlement>)

  const INIT := State(W.Db(map[], map[], L.EMPTY), map[])

  function Next(s: State, step: Step): State {
    match step
    case Create(id, userId, key, intent, amount, currency) =>
      var (_, rows, keys) := P.RecordCreated(s.db.rows, s.keys, id, userId, key, intent, amount, currency);
      State(s.db.(rows := rows), keys)
    case Deliver(e) => s.(db := W.Deliver(s.db, e).1)
    case Reconcile(ss) => s.(db := s.db.(ledger := R.Reconcile(s.db.ledger, ss).ledger))
  }

  /** A payment is succeeded exactly when its charge is in the ledger, and the charge is of its amount. */
  ghost predicate ChargesMatch(rows: P.Rows, book: L.Book) {
    forall i ::
      && (i in rows && rows[i].status == P.Succeeded <==> L.Key(L.Charge, i) in book)
      && (L.Key(L.Charge, i) in book ==> book[L.Key(L.Charge, i)] == W.ChargeDraft(i, rows[i]).entry)
  }

  predicate RowsAllowed(rows: P.Rows) {
    forall i :: i in rows ==> P.RowAllowed(rows[i].amount, rows[i].currency)
  }

  ghost predicate Agree(s: State) {
    && L.Integrity(s.db.ledger) && L.Shaped(s.db.ledger)
    && P.Indexed(s.db.rows, s.keys) && RowsAllowed(s.db.rows)
    && ChargesMatch(s.db.rows, L.BookOf(s.db.ledger))
  }

  function After(steps: seq<Step>): State {
    Fold(Next, INIT, steps)
  }

  lemma {:induction false} CreateAgrees(s: State, step: Step)
    requires Agree(s) && step.Create?
    ensures Agree(Next(s, step))
  {
    hide L.BookOf, L.Integrity, L.Shaped;
  }

  /** A delivery, seen through the keyed view, keeps statuses and charges in step. */
  lemma {:induction false} DeliveryMatches(v: W.View, e: M.StripeEvent)
    requires RowsAllowed(v.rows) && ChargesMatch(v.rows, v.book)
    ensures RowsAllowed(W.DeliverView(v, e).1.rows)
    ensures ChargesMatch(W.DeliverView(v, e).1.rows, W.DeliverView(v, e).1.book)
  {
    hide M.KindByType, M.LedgerKindByType, W.Plan, W.DeliverView;
    if e.id in v.inbox {
      C.ReplayIsNothing(v, e);
    } else {
      C.DeliverAccepted(v, e);
      if C.Accepted(e) {
        var rows, draft := W.Plan(v.rows, e).rows, W.Plan(v.rows, e).draft;
        C.PlanKeepsKeys(v.rows, e);
        C.PlanDraft(v.rows, e);
        C.AcceptedPosts(v.rows, e);
        forall i | i in rows ensures P.RowAllowed(rows[i].amount, rows[i].currency) {
          C.PlanRow(v.rows, e, i);
        }
        forall i
          ensures i in rows && rows[i].status == P.Succeeded <==> L.Key(L.Charge, i) in C.BookAfter(v.book, draft)
          ensures L.Key(L.Charge, i) in C.BookAfter(v.book, draft) ==>
                    C.BookAfter(v.book, draft)[L.Key(L.Charge, i)] == W.ChargeDraft(i, rows[i]).entry
        {
          if i in v.rows {
            C.PlanRow(v.rows, e, i);
          }
        }
      }
    }
  }

  lemma DeliveryShapes(db: W.Db, e: M.StripeEvent)
    requires L.Integrity(db.ledger) && L.Shaped(db.ledger)
    ensures L.Shaped(W.Deliver(db, e).1.ledger)
  {
    hide M.KindByType, M.LedgerKindByType, L.Integrity, L.Shaped;
    M.MapsExclusive(e.typ);
    var p := W.Plan(db.rows, e);
    if p.draft.Some? {
      L.IntegrityLinks(db.ledger);
      L.PostKeepsShaped(db.ledger, p.draft.value.key, p.draft.value.entry.currency,
                        if M.MapStripeEvent(e).Some? then db.rows[e.objectId].amount else e.amount);
    }
  }

  lemma DeliverAgrees(s: State, e: M.StripeEvent)
    requires Agree(s)
    ensures Agree(Next(s, Deliver(e)))
  {
    hide M.KindByType, M.LedgerKindByType, L.Integrity, L.Shaped, L.BookOf, W.DeliverView;
    W.DeliverRefines(s.db, e);
    DeliveryMatches(W.ViewOf(s.db), e);
    DeliveryShapes(s.db, e);
    RowsStayIndexed(s.db, s.keys, e);
  }

  lemma {:induction false} RowsStayIndexed(db: W.Db, keys: map<string, string>, e: M.StripeEvent)
    requires P.Indexed(db.rows, keys)
    ensures P.Indexed(W.Deliver(db, e).1.rows, keys)
  {
    hide M.KindByType, M.LedgerKindByType, L.Post, L.Template;
  }

  lemma {:induction false} ReconcileShapes(t: L.Tables, ss: seq<M.Settlement>)
    requires L.Integrity(t) && L.Shaped(t)
    ensures L.Shaped(R.Reconcile(t, ss).ledger)
    decreases |ss|
  {
    hide L.Integrity, L.Shaped, L.BookOf, R.Verdict;
    if ss != [] {
      var n := |ss| - 1;
      ReconcileShapes(t, ss[..n]);
      R.ReconcileKeeps(t, ss[..n]);
      var q := R.Reconcile(t, ss[..n]).ledger;
      L.IntegrityLinks(q);
      L.PostKeepsShaped(q, R.FeeKey(ss[n]), ss[n].currency, ss[n].fee);
    }
  }

  lemma ReconcileAgrees(s: State, ss: seq<M.Settlement>)
    requires Agree(s)
    ensures Agree(Next(s, Reconcile(ss)))
  {
    hide L.Integrity, L.Shaped, L.BookOf, R.Reconcile, W.ChargeDraft;
    R.ReconcileKeeps(s.db.ledger, ss);
    ReconcileShapes(s.db.ledger, ss);
  }

  /** In every reachable state the payment rows and the ledger agree. */
  lemma {:induction false} AlwaysAgree(steps: seq<Step>)
    ensures Agree(After(steps))
    decreases |steps|
  {
    hide Agree, Next;
    if steps == [] {
      InitAgrees();
    } else {
      var s := After(steps[..|steps| - 1]);
      AlwaysAgree(steps[..|steps| - 1]);
      match steps[|steps| - 1] {
        case Create(_, _, _, _, _, _) => CreateAgrees(s, steps[|steps| - 1]);
        case Deliver(e) => DeliverAgrees(s, e);
        case Reconcile(ss) => ReconcileAgrees(s, ss);
      }
    }
  }

  lemma InitAgrees()
    ensures Agree(INIT)
  {
  }

  /**
   What agreement says of the tables: a payment is succeeded exactly when one
   row of the entries table is its charge, and that row's currency and postings
   are the payment's.
   */
  lemma SucceededIffCharged(s: State, intent: string)
    requires Agree(s)
    ensures (intent in s.db.rows && s.db.rows[intent].status == P.Succeeded)
       <==> exists id :: 0 <= id < |s.db.ledger.entries| && s.db.ledger.entries[id].key == L.Key(L.Charge, intent)
    ensures L.UniqueKeys(s.db.ledger.entries)
    ensures forall id: nat :: id < |s.db.ledger.entries| && s.db.ledger.entries[id].key == L.Key(L.Charge, intent) ==>
              && intent in s.db.rows
              && s.db.ledger.entries[id].currency == s.db.rows[intent].currency
              && L.PostingsOf(s.db.ledger.postings, id)
                 == [L.Posting(L.StripeReceivable, s.db.rows[intent].amount),
                     L.Posting(L.Revenue, -s.db.rows[intent].amount)]
  {
    var t, k := s.db.ledger, L.Key(L.Charge, intent);
    L.BookKeys(t, k);
    forall id: nat | id < |t.entries| && t.entries[id].key == k
      ensures L.BookOf(t)[k] == L.Entry(t.entries[id].currency, L.PostingsOf(t.postings, id))
    {
      L.BookRow(t, id);
    }
  }

  // ------------------------------------------------- the reconciliation verdict

  /** The settlement's payment succeeded, and an unconverted settlement agrees with it. */
  predicate Settled(rows: P.Rows, s: M.Settlement) {
    R.Checked(s) ==>
      && s.intentId.value in rows && rows[s.intentId.value].status == P.Succeeded
      && (!s.converted ==> rows[s.intentId.value].currency == s.currency
                           && rows[s.intentId.value].amount == s.amount)
  }

  lemma VerdictMeansUnsettled(s: State, x: M.Settlement)
    requires Agree(s)
    ensures R.Verdict(L.BookOf(s.db.ledger), x) == [] <==> Settled(s.db.rows, x)
    ensures |R.Verdict(L.BookOf(s.db.ledger), x)| <= 1
  {
  }

  /** A run reports no discrepancy exactly when every settlement it checked is settled by the books. */
  lemma CleanRunIffSettled(s: State, ss: seq<M.Settlement>)
    requires Agree(s) && !R.Reconcile(s.db.ledger, ss).failed
    ensures R.Reconcile(s.db.ledger, ss).discrepancies == []
       <==> forall i :: 0 <= i < |ss| ==> Settled(s.db.rows, ss[i])
    ensures |R.Reconcile(s.db.ledger, ss).discrepancies| <= |ss|
  {
    hide L.Integrity, L.Shaped, L.BookOf, R.Reconcile, R.Verdict;
    R.ReportIsVerdicts(s.db.ledger, ss);
    R.VerdictsEmpty(L.BookOf(s.db.ledger), ss);
    forall i | 0 <= i < |ss|
      ensures R.Verdict(L.BookOf(s.db.ledger), ss[i]) == [] <==> Settled(s.db.rows, ss[i])
    {
      VerdictMeansUnsettled(s, ss[i]);
    }
  }

  // ------------------------------------------------------ revenue and payments

  /** The amounts of the succeeded payments in one currency. */
  function SucceededAmounts(rows: P.Rows, c: string): map<string, int> {
    map i | i in rows && rows[i].status == P.Succeeded && rows[i].currency == c :: rows[i].amount
  }

  /** The charges in one currency among the first `n` entries, by intent. */
  ghost function ChargeAmounts(t: L.Tables, c: string, n: nat): map<string, int>
    requires n <= |t.entries|
  {
    if n == 0 then
      map[]
    else
      var rest := ChargeAmounts(t, c, n - 1);
      if t.entries[n - 1].key.kind == L.Charge && t.entries[n - 1].currency == c
      then rest[t.entries[n - 1].key.reference := L.AmountOf(L.PostingsOf(t.postings, n - 1))]
      else rest
  }

  lemma {:induction false} ChargeAmountsOf(t: L.Tables, c: string, n: nat)
    requires n <= |t.entries| && L.UniqueKeys(t.entries)
    ensures forall i :: i in ChargeAmounts(t, c, n) <==>
              exists id :: 0 <= id < n && t.entries[id] == L.EntryRow(L.Key(L.Charge, i), c)
    ensures forall id: nat :: id < n && t.entries[id].key.kind == L.Charge && t.entries[id].currency == c ==>
              && t.entries[id].key.reference in ChargeAmounts(t, c, n)
              && ChargeAmounts(t, c, n)[t.entries[id].key.reference] == L.AmountOf(L.PostingsOf(t.postings, id))
    ensures MapSum(ChargeAmounts(t, c, n)) == L.Gross(t, L.Charge, c, n)
  {
    hide L.PostingsOf, L.AmountOf;
    if n > 0 {
      ChargeAmountsOf(t, c, n - 1);
      var row := t.entries[n - 1];
      if row.key.kind == L.Charge && row.currency == c {
        assert row == L.EntryRow(L.Key(L.Charge, row.key.reference), c);
        MapSumInsert(ChargeAmounts(t, c, n - 1), row.key.reference, L.AmountOf(L.PostingsOf(t.postings, n - 1)));
      }
    }
  }

  lemma ChargesAreSucceeded(s: State, c: string)
    requires Agree(s)
    ensures ChargeAmounts(s.db.ledger, c, |s.db.ledger.entries|) == SucceededAmounts(s.db.rows, c)
  {
    hide L.PostingsOf, ChargeAmounts, L.Shaped, Agree;
    var t, rows := s.db.ledger, s.db.rows;
    var charges := ChargeAmounts(t, c, |t.entries|);
    AgreeIsUnique(s);
    ChargeAmountsOf(t, c, |t.entries|);
    forall i ensures i in charges <==> i in SucceededAmounts(rows, c) {
      SucceededIffCharged(s, i);
      if i in SucceededAmounts(rows, c) {
        var id :| 0 <= id < |t.entries| && t.entries[id].key == L.Key(L.Charge, i);
        assert t.entries[id] == L.EntryRow(L.Key(L.Charge, i), c);
      }
    }
    forall i | i in charges ensures charges[i] == SucceededAmounts(rows, c)[i] {
      SucceededIffCharged(s, i);
      var id: nat :| id < |t.entries| && t.entries[id] == L.EntryRow(L.Key(L.Charge, i), c);
    }
  }

  lemma AgreeIsUnique(s: State)
    requires Agree(s)
    ensures L.Integrity(s.db.ledger) && L.Shaped(s.db.ledger)
  {
  }

  /** Across the books: revenue reported in a currency is minus the sum of the succeeded payments in it. */
  lemma {:induction false} RevenueIsSucceededPayments(steps: seq<Step>, c: string)
    ensures var s := After(steps);
            && L.Linked(s.db.ledger)
            && L.Reported(L.LedgerBalances(s.db.ledger), L.Revenue, c) == -MapSum(SucceededAmounts(s.db.rows, c))
            && L.Reported(L.LedgerBalances(s.db.ledger), L.StripeReceivable, c)
               == MapSum(SucceededAmounts(s.db.rows, c))
                  - L.Reported(L.LedgerBalances(s.db.ledger), L.Refunds, c)
                  - L.Reported(L.LedgerBalances(s.db.ledger), L.Disputes, c)
                  - L.Reported(L.LedgerBalances(s.db.ledger), L.Fees, c)
  {
    var s := After(steps);
    AlwaysAgree(steps);
    ChargesAreSucceeded(s, c);
    ChargeAmountsOf(s.db.ledger, c, |s.db.ledger.entries|);
    L.ReportByKind(s.db.ledger, c);
  }
}
