/**
 Reconciliation runs that overlap: each fee is one transaction, so the runs'
 settlements mix in any order on the one ledger. A run that dies simply stops
 contributing.
 */
module OverlappingRuns {
  import opened Prelude
  import L = Ledger
  import opened M = StripeMapping
  import opened R = Reconciliation

  /** One settlement, processed by one of the runs. */
  datatype Item = Item(run: nat, settlement: Settlement)

  /** The ledger, and what one run has reported so far. */
  datatype Shared = Shared(ledger: L.Tables, fees: int, discrepancies: seq<Discrepancy>)

  /** All settlements, in the order they were processed. */
  function Mixed(items: seq<Item>): seq<Settlement> {
    seq(|items|, i requires 0 <= i < |items| => items[i].settlement)
  }

  /** The settlements of one run. */
  function BatchOf(items: seq<Item>, run: nat): seq<Settlement> {
    if items == [] then []
    else
      var last := items[|items| - 1];
      BatchOf(items[..|items| - 1], run) + if last.run == run then [last.settlement] else []
  }

  /** What one run sees: its own fees and discrepancies, on a ledger everybody writes. */
  function Overlapped(t: L.Tables, items: seq<Item>, run: nat): Shared {
    if items == [] then
      Shared(t, 0, [])
    else
      var before := Overlapped(t, items[..|items| - 1], run);
      var last := items[|items| - 1];
      var p := Settle(Pass(before.ledger, 0, [], false), last.settlement);
      if last.run == run then Shared(p.ledger, before.fees + p.fees, before.discrepancies + p.discrepancies)
      else before.(ledger := p.ledger)
  }

  predicate NoneThrows(items: seq<Item>) {
    forall i :: 0 <= i < |items| ==> !Throws(items[i].settlement)
  }

  lemma {:induction false} SharedLedger(t: L.Tables, items: seq<Item>, run: nat)
    requires L.Integrity(t) && NoneThrows(items)
    ensures !Reconcile(t, Mixed(items)).failed
    ensures Overlapped(t, items, run).ledger == Reconcile(t, Mixed(items)).ledger
    decreases |items|
  {
    hide L.Post, L.BookOf, L.Integrity, Verdict;
    ReconcileKeeps(t, Mixed(items));
    if items != [] {
      var n := |items| - 1;
      SharedLedger(t, items[..n], run);
      assert Mixed(items)[..n] == Mixed(items[..n]);
    }
  }

  /** A run reports what it would have reported alone: other runs' fees change no verdict. */
  lemma {:induction false} ReportsAreUndisturbed(t: L.Tables, items: seq<Item>, run: nat)
    requires L.Integrity(t) && NoneThrows(items)
    ensures Overlapped(t, items, run).discrepancies == Verdicts(L.BookOf(t), BatchOf(items, run))
    ensures !Reconcile(t, BatchOf(items, run)).failed
    ensures Overlapped(t, items, run).discrepancies == Reconcile(t, BatchOf(items, run)).discrepancies
    decreases |items|
  {
    BatchDoesNotThrow(items, run);
    ReconcileKeeps(t, BatchOf(items, run));
    ReportIsVerdicts(t, BatchOf(items, run));
    if items != [] {
      var n := |items| - 1;
      var batch := BatchOf(items[..n], run);
      ReportsAreUndisturbed(t, items[..n], run);
      if items[n].run == run {
        var s := items[n].settlement;
        SharedLedger(t, items[..n], run);
        OneReports(t, Mixed(items[..n]), s);
        assert BatchOf(items, run) == batch + [s];
        assert (batch + [s])[..|batch|] == batch;
      } else {
        assert BatchOf(items, run) == batch;
      }
    }
  }

  /** A settlement's verdict after other settlements were processed is its verdict before. */
  lemma OneReports(t: L.Tables, before: seq<Settlement>, s: Settlement)
    requires L.Integrity(t) && !Throws(s)
    ensures Settle(Pass(Reconcile(t, before).ledger, 0, [], false), s).discrepancies == Verdict(L.BookOf(t), s)
  {
    ReconcileKeeps(t, before);
    var mid := Reconcile(t, before).ledger;
    ReconcileKeeps(mid, [s]);
    assert [s][..0] == [];
    assert Reconcile(mid, [s]) == Settle(Pass(mid, 0, [], false), s);
    SameCharges(L.BookOf(t), L.BookOf(mid), s);
    SameCharges(L.BookOf(mid), L.BookOf(Reconcile(mid, [s]).ledger), s);
  }

  lemma {:induction false} BatchDoesNotThrow(items: seq<Item>, run: nat)
    requires NoneThrows(items)
    ensures forall i :: 0 <= i < |BatchOf(items, run)| ==> !Throws(BatchOf(items, run)[i])
    decreases |items|
  {
    if items != [] {
      BatchDoesNotThrow(items[..|items| - 1], run);
    }
  }

  /** The fees reported by the first `n` runs. */
  function ReportedFees(t: L.Tables, items: seq<Item>, n: nat): int {
    if n == 0 then 0 else ReportedFees(t, items, n - 1) + Overlapped(t, items, n - 1).fees
  }

  lemma {:induction false} NoItemsNoFees(t: L.Tables, n: nat)
    ensures ReportedFees(t, [], n) == 0
    decreases n
  {
    if n > 0 {
      NoItemsNoFees(t, n - 1);
    }
  }

  /** An item's fee shows in the report of its own run only. */
  lemma {:induction false} ReportedFeesStep(t: L.Tables, items: seq<Item>, n: nat)
    requires items != []
    ensures var k, last := |items| - 1, items[|items| - 1];
            ReportedFees(t, items, n)
            == ReportedFees(t, items[..k], n)
               + if last.run < n
                 then Settle(Pass(Overlapped(t, items[..k], last.run).ledger, 0, [], false), last.settlement).fees
                 else 0
    decreases n
  {
    hide Settle;
    if n > 0 {
      ReportedFeesStep(t, items, n - 1);
    }
  }

  /** Overlapping runs count each fee once between them: their reports add up to the balance change. */
  lemma {:induction false} FeesCountedOnce(t: L.Tables, items: seq<Item>, n: nat)
    requires L.Integrity(t) && NoneThrows(items) && forall i :: 0 <= i < |items| ==> items[i].run < n
    ensures FeesBalance(Reconcile(t, Mixed(items)).ledger) == FeesBalance(t) + ReportedFees(t, items, n)
    decreases |items|
  {
    hide Settle, FeesBalance;
    if items == [] {
      NoItemsNoFees(t, n);
    } else {
      var k := |items| - 1;
      var last := items[k];
      FeesCountedOnce(t, items[..k], n);
      ReportedFeesStep(t, items, n);
      SharedLedger(t, items[..k], last.run);
      SharedLedger(t, items, last.run);
      var mid := Reconcile(t, Mixed(items[..k])).ledger;
      assert Mixed(items)[..k] == Mixed(items[..k]);
      assert [last.settlement][..0] == [];
      assert Reconcile(mid, [last.settlement]) == Settle(Pass(mid, 0, [], false), last.settlement);
      FeesAreBalanceChange(mid, [last.settlement]);
    }
  }

  /** Two ways to interleave the same work leave the same ledger when equal ids carry equal fees. */
  lemma InterleavingInvisible(t: L.Tables, items: seq<Item>, others: seq<Item>)
    requires L.Integrity(t) && NoneThrows(items) && Permutes(Mixed(items), Mixed(others)) && OneFeePerId(t, Mixed(items))
    ensures L.BookOf(Reconcile(t, Mixed(others)).ledger) == L.BookOf(Reconcile(t, Mixed(items)).ledger)
  {
    OrderFreeIffOneFeePerId(t, Mixed(items));
  }
}
