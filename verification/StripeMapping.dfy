/** Provider events and balance transactions, mapped to what the domain works on. */
module StripeMapping {
  import opened Prelude
  import L = Ledger

  /** A verified provider event; the object's fields that are read are kept flat. */
  datatype StripeEvent = StripeEvent(id: string, typ: string, created: int,
                                     objectId: string, amount: int, currency: string)

  datatype PaymentEventKind = Processing | Succeeded | Failed | Canceled

  /** `at` is in milliseconds. */
  datatype PaymentEvent = PaymentEvent(kind: PaymentEventKind, intent: string, at: int)

  datatype LedgerEvent = LedgerEvent(kind: L.EntryKind, reference: string, amount: int, currency: string)

  datatype BalanceTxn = BalanceTxn(id: string, typ: string, created: int, amount: int, fee: int,
                                   currency: string, sourceIntent: Option<string>, exchangeRate: bool)

  datatype Settlement = Settlement(balanceTxnId: string, intentId: Option<string>, amount: int,
                                   fee: int, currency: string, converted: bool)

  function KindByType(typ: string): Option<PaymentEventKind> {
    if typ == "payment_intent.processing" then Some(Processing)
    else if typ == "payment_intent.succeeded" then Some(Succeeded)
    else if typ == "payment_intent.payment_failed" then Some(Failed)
    else if typ == "payment_intent.canceled" then Some(Canceled)
    else None
  }

  function MapStripeEvent(e: StripeEvent): Option<PaymentEvent> {
    match KindByType(e.typ)
    case None => None
    case Some(kind) => Some(PaymentEvent(kind, e.objectId, e.created * 1000))
  }

  function LedgerKindByType(typ: string): Option<L.EntryKind> {
    if typ == "refund.created" then Some(L.Refund)
    else if typ == "charge.dispute.created" then Some(L.Dispute)
    else None
  }

  function MapLedgerEvent(e: StripeEvent): Option<LedgerEvent> {
    match LedgerKindByType(e.typ)
    case None => None
    case Some(kind) => Some(LedgerEvent(kind, e.objectId, e.amount, e.currency))
  }

  /** An event moves a payment or the books, never both, and the books only for money going out. */
  lemma MapsExclusive(typ: string)
    ensures KindByType(typ).None? || LedgerKindByType(typ).None?
    ensures LedgerKindByType(typ) in {None, Some(L.Refund), Some(L.Dispute)}
  {
  }

  function MapBalanceTransaction(t: BalanceTxn): Option<Settlement> {
    if t.typ != "charge" && t.typ != "payment" then
      None
    else
      Some(Settlement(t.id, t.sourceIntent, t.amount, t.fee, t.currency, t.exchangeRate))
  }

  /** The settlements of a batch, in order: map, then drop the ones that are not settlements. */
  function Settlements(txns: seq<BalanceTxn>): seq<Settlement> {
    if txns == [] then
      []
    else
      var rest := Settlements(txns[..|txns| - 1]);
      match MapBalanceTransaction(txns[|txns| - 1])
      case None => rest
      case Some(s) => rest + [s]
  }

  /** The settlements are those of the charges and payments listed, each with its own figures. */
  lemma {:induction false} SettlementsExact(txns: seq<BalanceTxn>, s: Settlement)
    ensures s in Settlements(txns) <==> exists i :: 0 <= i < |txns| && SettledBy(txns[i], s)
    decreases |txns|
  {
    if txns != [] {
      var n := |txns| - 1;
      SettlementsExact(txns[..n], s);
      assert forall i :: 0 <= i < n ==> txns[..n][i] == txns[i];
    }
  }

  /** They come in list order, each as often as it is listed: one at a time, and nothing for the rest. */
  lemma SettlementsInOrder(txns: seq<BalanceTxn>, t: BalanceTxn)
    ensures t.typ !in {"charge", "payment"} ==> Settlements(txns + [t]) == Settlements(txns)
    ensures t.typ in {"charge", "payment"} ==>
              |Settlements(txns + [t])| == |Settlements(txns)| + 1
              && Settlements(txns) <= Settlements(txns + [t])
              && SettledBy(t, Settlements(txns + [t])[|Settlements(txns)|])
    ensures Settlements([]) == []
  {
    assert (txns + [t])[..|txns|] == txns;
  }

  /** The settlement carries the transaction's id, gross, fee and currency, and is converted if it has a rate. */
  predicate SettledBy(t: BalanceTxn, s: Settlement) {
    && t.typ in {"charge", "payment"}
    && s.balanceTxnId == t.id && s.amount == t.amount && s.fee == t.fee && s.currency == t.currency
    && s.intentId == t.sourceIntent && s.converted == t.exchangeRate
  }
}
