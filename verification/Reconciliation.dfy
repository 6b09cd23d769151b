/** Reconciliation: fees posted from settlements, discrepancies flagged, every run recorded. */
module Reconciliation {
  import opened Prelude
  import L = Ledger
  import opened M = StripeMapping
  import V = Provider

  datatype Reason =
    | MissingFromLedger
    | CurrencyMismatch(ledger: string, provider: string)
    | AmountMismatch(ledgerAmount: int, providerAmount: int)

  datatype Discrepancy = Discrepancy(reference: string, amount: int, reason: Reason)

  /** The state of one pass over settlements; `failed` when posting a fee threw. */
  datatype Pass = Pass(ledger: L.Tables, fees: int, discrepancies: seq<Discrepancy>, failed: bool)

  function FeeKey(s: Settlement): L.Key {
    L.Key(L.Fee, s.balanceTxnId)
  }

  function FeeEntry(s: Settlement): L.Entry {
    L.Entry(s.currency, L.Template(L.Fee, s.fee))
  }

  /** The first receivable posting of an entry. */
  function Receivable(ps: seq<L.Posting>): Option<int> {
    if ps == [] then None
    else if ps[0].account == L.StripeReceivable then Some(ps[0].amount)
    else Receivable(ps[1..])
  }

  /** The charge posted for an intent, as the query joins it: its currency and receivable amount. */
  function ChargeOf(book: L.Book, intent: string): Option<(string, int)> {
    var k := L.Key(L.Charge, intent);
    if k !in book then None
    else match Receivable(book[k].postings)
         case None => None
         case Some(amount) => Some((book[k].currency, amount))
  }

  /** A charge with no intent is not checked. */
  predicate Checked(s: Settlement) {
    s.intentId.Some? && s.intentId.value != ""
  }

  function Verdict(book: L.Book, s: Settlement): seq<Discrepancy> {
    if !Checked(s) then
      []
    else
      var intent := s.intentId.value;
      match ChargeOf(book, intent)
      case None => [Discrepancy(intent, s.amount, MissingFromLedger)]
      case Some(charge) =>
        if !s.converted && charge.0 != s.currency then
          [Discrepancy(intent, s.amount, CurrencyMismatch(charge.0, s.currency))]
        else if !s.converted && charge.1 != s.amount then
          [Discrepancy(intent, s.amount, AmountMismatch(charge.1, s.amount))]
        else
          []
  }

  function Settle(p: Pass, s: Settlement): Pass {
    if p.failed then
      p
    else
      var (r, ledger) := if s.fee > 0 then L.Post(p.ledger, FeeKey(s), FeeEntry(s)) else (L.Duplicate, p.ledger);
      if r == L.Raised then
        p.(failed := true)
      else
        Pass(ledger, p.fees + (if r == L.Posted then s.fee else 0),
             p.discrepancies + Verdict(L.BookOf(ledger), s), false)
  }

  /** A pass over a batch. */
  function Reconcile(t: L.Tables, ss: seq<Settlement>): Pass {
    if ss == [] then Pass(t, 0, [], false) else Settle(Reconcile(t, ss[..|ss| - 1]), ss[|ss| - 1])
  }

  /** Posting this settlement's fee would throw. */
  predicate Throws(s: Settlement) {
    s.fee > 0 && |s.currency| != L.CURRENCY_LENGTH
  }

  /** The pass of `q` run after the pass `p`. */
  function Then(p: Pass, q: Pass): Pass {
    if p.failed then p
    else Pass(q.ledger, p.fees + q.fees, p.discrepancies + q.discrepancies, q.failed)
  }

  // ---------------------------------------------------------- a pass is a fold

  /** Two batches in a row are one batch: ledgers equal, fees add, discrepancies concatenate. */
  lemma {:induction false} ReconcileSplit(t: L.Tables, a: seq<Settlement>, b: seq<Settlement>)
    ensures Reconcile(t, a + b) == Then(Reconcile(t, a), Reconcile(Reconcile(t, a).ledger, b))
    decreases |b|
  {
    hide Settle;
    if b == [] {
      assert a + b == a;
    } else {
      var n := |b| - 1;
      ReconcileSplit(t, a, b[..n]);
      assert (a + b)[..|a + b| - 1] == a + b[..n];
      var p, q := Reconcile(t, a), Reconcile(Reconcile(t, a).ledger, b[..n]);
      SettleThen(p, q, b[n]);
    }
  }

  lemma SettleThen(p: Pass, q: Pass, s: Settlement)
    ensures Settle(Then(p, q), s) == Then(p, Settle(q, s))
  {
  }

  lemma FeeEntryFits(s: Settlement)
    ensures FeeEntry(s).postings != [] && L.Imbalance(FeeEntry(s).postings) == 0
  {
    L.TemplateBalances(L.Fee, s.fee);
  }

  /** The second ledger is the first with some fee entries added. */
  ghost predicate GrowsByFees(a: L.Book, b: L.Book) {
    && (forall k :: k in a ==> k in b && b[k] == a[k])
    && (forall k :: k in b && k !in a ==> k.kind == L.Fee)
  }

  lemma FeeStep(t: L.Tables, s: Settlement)
    requires L.Integrity(t)
    ensures L.Post(t, FeeKey(s), FeeEntry(s)).0
         == if |s.currency| != L.CURRENCY_LENGTH then L.Raised
            else if FeeKey(s) in L.BookOf(t) then L.Duplicate else L.Posted
    ensures var t' := L.Post(t, FeeKey(s), FeeEntry(s)).1;
            && L.Integrity(t')
            && L.BookOf(t') == (if |s.currency| != L.CURRENCY_LENGTH || FeeKey(s) in L.BookOf(t)
                                then L.BookOf(t) else L.BookOf(t)[FeeKey(s) := FeeEntry(s)])
  {
    FeeEntryFits(s);
    L.PostRefines(t, FeeKey(s), FeeEntry(s));
    L.PostKeepsIntegrity(t, FeeKey(s), FeeEntry(s));
  }

  /** A pass keeps the ledger sound, fails exactly on a settlement that throws, and only adds fees. */
  lemma {:induction false} ReconcileKeeps(t: L.Tables, ss: seq<Settlement>)
    requires L.Integrity(t)
    ensures L.Integrity(Reconcile(t, ss).ledger)
    ensures Reconcile(t, ss).failed <==> exists i :: 0 <= i < |ss| && Throws(ss[i])
    ensures GrowsByFees(L.BookOf(t), L.BookOf(Reconcile(t, ss).ledger))
    decreases |ss|
  {
    hide Settle, L.BookOf, L.Integrity, GrowsByFees, Throws;
    if ss == [] {
      NothingGrown(L.BookOf(t));
    } else {
      var n := |ss| - 1;
      ReconcileKeeps(t, ss[..n]);
      SettleKeeps(Reconcile(t, ss[..n]), ss[n]);
      GrowthChains(L.BookOf(t), L.BookOf(Reconcile(t, ss[..n]).ledger), L.BookOf(Reconcile(t, ss).ledger));
      assert forall i :: 0 <= i < n ==> ss[..n][i] == ss[i];
      if Reconcile(t, ss[..n]).failed {
        var i :| 0 <= i < n && Throws(ss[..n][i]);
        assert Throws(ss[i]);
      }
    }
  }

  lemma NothingGrown(a: L.Book)
    ensures GrowsByFees(a, a)
  {
  }

  lemma GrowthChains(a: L.Book, b: L.Book, c: L.Book)
    requires GrowsByFees(a, b) && GrowsByFees(b, c)
    ensures GrowsByFees(a, c)
  {
  }

  lemma SettleKeeps(p: Pass, s: Settlement)
    requires L.Integrity(p.ledger)
    ensures L.Integrity(Settle(p, s).ledger) && GrowsByFees(L.BookOf(p.ledger), L.BookOf(Settle(p, s).ledger))
    ensures Settle(p, s).failed <==> p.failed || Throws(s)
  {
    hide L.BookOf, L.Integrity, L.Post, Verdict, FeeEntry;
    FeeStep(p.ledger, s);
  }

  lemma SameCharges(a: L.Book, b: L.Book, s: Settlement)
    requires GrowsByFees(a, b)
    ensures Verdict(a, s) == Verdict(b, s)
  {
  }

  /** The verdicts a batch deserves against a fixed ledger. */
  function Verdicts(book: L.Book, ss: seq<Settlement>): seq<Discrepancy> {
    if ss == [] then [] else Verdicts(book, ss[..|ss| - 1]) + Verdict(book, ss[|ss| - 1])
  }

  /** The fees a pass posts never change its verdicts: they are those of the ledger it started from. */
  lemma {:induction false} ReportIsVerdicts(t: L.Tables, ss: seq<Settlement>)
    requires L.Integrity(t) && !Reconcile(t, ss).failed
    ensures Reconcile(t, ss).discrepancies == Verdicts(L.BookOf(t), ss)
    decreases |ss|
  {
    if ss != [] {
      var n := |ss| - 1;
      ReportIsVerdicts(t, ss[..n]);
      ReconcileKeeps(t, ss);
      SameCharges(L.BookOf(t), L.BookOf(Reconcile(t, ss).ledger), ss[n]);
    }
  }

  /** Every discrepancy is of one settlement, and a settlement gives at most one. */
  lemma {:induction false} VerdictsEmpty(book: L.Book, ss: seq<Settlement>)
    ensures Verdicts(book, ss) == [] <==> forall i :: 0 <= i < |ss| ==> Verdict(book, ss[i]) == []
    ensures |Verdicts(book, ss)| <= |ss|
    decreases |ss|
  {
    hide Verdict;
    if ss != [] {
      var n := |ss| - 1;
      var earlier := ss[..n];
      VerdictsEmpty(book, earlier);
      OneVerdict(book, ss[n]);
      assert forall i :: 0 <= i < n ==> earlier[i] == ss[i];
      assert Verdicts(book, ss) == [] <==> Verdicts(book, earlier) == [] && Verdict(book, ss[n]) == [];
    }
  }

  lemma OneVerdict(book: L.Book, s: Settlement)
    ensures |Verdict(book, s)| <= 1
  {
  }

  // ------------------------------------------------- crashes and second runs

  /** Every fee of the batch is already in the ledger. */
  predicate FeesIn(book: L.Book, ss: seq<Settlement>) {
    forall i :: 0 <= i < |ss| && ss[i].fee > 0 ==> FeeKey(ss[i]) in book
  }

  lemma {:induction false} FeesLeft(t: L.Tables, ss: seq<Settlement>)
    requires L.Integrity(t) && !Reconcile(t, ss).failed
    ensures FeesIn(L.BookOf(Reconcile(t, ss).ledger), ss)
    decreases |ss|
  {
    hide L.BookOf, L.Integrity, L.Post, Verdict, FeeEntry;
    if ss != [] {
      var n := |ss| - 1;
      FeesLeft(t, ss[..n]);
      ReconcileKeeps(t, ss[..n]);
      FeeStep(Reconcile(t, ss[..n]).ledger, ss[n]);
      assert forall i :: 0 <= i < n ==> ss[..n][i] == ss[i];
    }
  }

  lemma {:induction false} NothingToPost(t: L.Tables, ss: seq<Settlement>)
    requires L.Integrity(t) && FeesIn(L.BookOf(t), ss)
    ensures Reconcile(t, ss).ledger == t && Reconcile(t, ss).fees == 0
    decreases |ss|
  {
    hide L.BookOf, Verdict, L.PostingsOf;
    if ss != [] {
      var n := |ss| - 1;
      assert forall i :: 0 <= i < n ==> ss[..n][i] == ss[i];
      NothingToPost(t, ss[..n]);
      if ss[n].fee > 0 {
        L.BookKeys(t, FeeKey(ss[n]));
      }
    }
  }

  /** A second full run posts nothing and reports the same discrepancies. */
  lemma SecondRunIsQuiet(t: L.Tables, ss: seq<Settlement>)
    requires L.Integrity(t) && !Reconcile(t, ss).failed
    ensures Reconcile(Reconcile(t, ss).ledger, ss)
         == Pass(Reconcile(t, ss).ledger, 0, Reconcile(t, ss).discrepancies, false)
  {
    var p := Reconcile(t, ss);
    ReconcileKeeps(t, ss);
    FeesLeft(t, ss);
    NothingToPost(p.ledger, ss);
    ReconcileKeeps(p.ledger, ss);
    ReportIsVerdicts(t, ss);
    ReportIsVerdicts(p.ledger, ss);
    SameVerdicts(L.BookOf(t), L.BookOf(p.ledger), ss);
  }

  lemma {:induction false} SameVerdicts(a: L.Book, b: L.Book, ss: seq<Settlement>)
    requires GrowsByFees(a, b)
    ensures Verdicts(a, ss) == Verdicts(b, ss)
    decreases |ss|
  {
    if ss != [] {
      SameVerdicts(a, b, ss[..|ss| - 1]);
      SameCharges(a, b, ss[|ss| - 1]);
    }
  }

  /** A crash after any prefix, then a full re-run: the ledger of one clean pass, and the same report. */
  lemma CrashThenRerun(t: L.Tables, done: seq<Settlement>, rest: seq<Settlement>)
    requires L.Integrity(t)
    ensures var crashed := Reconcile(t, done).ledger;
            && Reconcile(crashed, done + rest).ledger == Reconcile(t, done + rest).ledger
            && Reconcile(crashed, done + rest).failed == Reconcile(t, done + rest).failed
            && (!Reconcile(t, done + rest).failed ==>
                  && Reconcile(crashed, done + rest).discrepancies == Reconcile(t, done + rest).discrepancies
                  && Reconcile(t, done).fees + Reconcile(crashed, done + rest).fees
                     == Reconcile(t, done + rest).fees)
  {
    var crashed := Reconcile(t, done).ledger;
    ReconcileKeeps(t, done);
    ReconcileKeeps(t, done + rest);
    ReconcileKeeps(crashed, done + rest);
    ReconcileSplit(t, done, rest);
    ReconcileSplit(crashed, done, rest);
    if Reconcile(t, done).failed {
      FailedRerun(t, done);
      ReconcileKeeps(crashed, done);
    } else {
      SecondRunIsQuiet(t, done);
      if !Reconcile(t, done + rest).failed {
        ReportIsVerdicts(t, done + rest);
        ReportIsVerdicts(crashed, done + rest);
        SameVerdicts(L.BookOf(t), L.BookOf(crashed), done + rest);
      }
    }
  }

  /** A pass that threw stops at the same place when it is run again. */
  lemma {:induction false} FailedRerun(t: L.Tables, ss: seq<Settlement>)
    requires L.Integrity(t) && Reconcile(t, ss).failed
    ensures Reconcile(Reconcile(t, ss).ledger, ss).ledger == Reconcile(t, ss).ledger
    decreases |ss|
  {
    var n := |ss| - 1;
    var q := Reconcile(t, ss[..n]);
    ReconcileKeeps(t, ss[..n]);
    if q.failed {
      FailedRerun(t, ss[..n]);
      ReconcileKeeps(q.ledger, ss[..n]);
    } else {
      FeesLeft(t, ss[..n]);
      NothingToPost(q.ledger, ss[..n]);
      FeeEntryFits(ss[n]);
    }
  }

  // ------------------------------------------------------------ permutations

  predicate Permutes(a: seq<Settlement>, b: seq<Settlement>) {
    multiset(a) == multiset(b)
  }

  /** No order of the batch can be told from another by the ledger it leaves. */
  ghost predicate OrderFree(t: L.Tables, ss: seq<Settlement>) {
    forall rr :: Permutes(ss, rr) ==> L.BookOf(Reconcile(t, rr).ledger) == L.BookOf(Reconcile(t, ss).ledger)
  }

  /** Settlements whose fee is still to be posted agree on it whenever they share an id. */
  predicate OneFeePerId(t: L.Tables, ss: seq<Settlement>) {
    forall i, j :: 0 <= i < |ss| && 0 <= j < |ss| && ss[i].fee > 0 && ss[j].fee > 0
                   && ss[i].balanceTxnId == ss[j].balanceTxnId && FeeKey(ss[i]) !in L.BookOf(t) ==>
      ss[i].fee == ss[j].fee && ss[i].currency == ss[j].currency
  }

  /** The fee of `k` was posted by one of the settlements. */
  ghost predicate FeeFrom(ss: seq<Settlement>, k: L.Key, e: L.Entry) {
    exists i :: 0 <= i < |ss| && ss[i].fee > 0 && FeeKey(ss[i]) == k && FeeEntry(ss[i]) == e
  }

  ghost predicate HasFeeFor(ss: seq<Settlement>, k: L.Key) {
    exists i :: 0 <= i < |ss| && ss[i].fee > 0 && FeeKey(ss[i]) == k
  }

  lemma OneMoreFee(ss: seq<Settlement>, k: L.Key, e: L.Entry)
    requires ss != []
    ensures var n := |ss| - 1;
            && (HasFeeFor(ss, k) <==> HasFeeFor(ss[..n], k) || (ss[n].fee > 0 && FeeKey(ss[n]) == k))
            && (FeeFrom(ss, k, e)
                <==> FeeFrom(ss[..n], k, e) || (ss[n].fee > 0 && FeeKey(ss[n]) == k && FeeEntry(ss[n]) == e))
  {
  }

  lemma {:induction false} FeesTrack(t: L.Tables, ss: seq<Settlement>, k: L.Key)
    requires L.Integrity(t) && !Reconcile(t, ss).failed && k !in L.BookOf(t)
    ensures k in L.BookOf(Reconcile(t, ss).ledger) <==> HasFeeFor(ss, k)
    ensures k in L.BookOf(Reconcile(t, ss).ledger) ==> FeeFrom(ss, k, L.BookOf(Reconcile(t, ss).ledger)[k])
    decreases |ss|
  {
    hide L.BookOf, L.Integrity, L.Post, Verdict, FeeEntry, HasFeeFor, FeeFrom;
    if ss == [] {
      NoFees(k);
    } else {
      var n := |ss| - 1;
      var q, b := Reconcile(t, ss[..n]).ledger, L.BookOf(Reconcile(t, ss).ledger);
      FeesTrack(t, ss[..n], k);
      ReconcileKeeps(t, ss[..n]);
      FeeStep(q, ss[n]);
      OneMoreFee(ss, k, if k in b then b[k] else FeeEntry(ss[n]));
    }
  }

  lemma NoFees(k: L.Key)
    ensures !HasFeeFor([], k)
  {
  }

  lemma PermutedSettlement(ss: seq<Settlement>, rr: seq<Settlement>, i: nat) returns (j: nat)
    requires Permutes(ss, rr) && i < |ss|
    ensures j < |rr| && rr[j] == ss[i]
  {
    assert ss[i] in multiset(rr);
    j :| 0 <= j < |rr| && rr[j] == ss[i];
  }

  lemma SameThrows(ss: seq<Settlement>, rr: seq<Settlement>)
    requires Permutes(ss, rr) && forall i :: 0 <= i < |ss| ==> !Throws(ss[i])
    ensures forall i :: 0 <= i < |rr| ==> !Throws(rr[i])
  {
    forall i | 0 <= i < |rr| ensures !Throws(rr[i]) {
      var j := PermutedSettlement(rr, ss, i);
    }
  }

  lemma {:induction false} KeyContained(t: L.Tables, ss: seq<Settlement>, rr: seq<Settlement>, k: L.Key)
    requires L.Integrity(t) && Permutes(ss, rr) && OneFeePerId(t, ss)
    requires !Reconcile(t, ss).failed && !Reconcile(t, rr).failed
    ensures k in L.BookOf(Reconcile(t, rr).ledger) ==>
              && k in L.BookOf(Reconcile(t, ss).ledger)
              && L.BookOf(Reconcile(t, ss).ledger)[k] == L.BookOf(Reconcile(t, rr).ledger)[k]
  {
    hide L.BookOf, L.Integrity, Reconcile;
    ReconcileKeeps(t, ss);
    ReconcileKeeps(t, rr);
    var b, c := L.BookOf(Reconcile(t, ss).ledger), L.BookOf(Reconcile(t, rr).ledger);
    if k in c && k !in L.BookOf(t) {
      FeesTrack(t, ss, k);
      FeesTrack(t, rr, k);
      var i :| 0 <= i < |rr| && rr[i].fee > 0 && FeeKey(rr[i]) == k && FeeEntry(rr[i]) == c[k];
      var j := PermutedSettlement(rr, ss, i);
      assert HasFeeFor(ss, k);
      var m :| 0 <= m < |ss| && ss[m].fee > 0 && FeeKey(ss[m]) == k && FeeEntry(ss[m]) == b[k];
      assert ss[m].balanceTxnId == ss[j].balanceTxnId;
    }
  }

  lemma {:induction false} BookContained(t: L.Tables, ss: seq<Settlement>, rr: seq<Settlement>)
    requires L.Integrity(t) && Permutes(ss, rr) && OneFeePerId(t, ss)
    requires forall i :: 0 <= i < |ss| ==> !Throws(ss[i])
    requires forall i :: 0 <= i < |rr| ==> !Throws(rr[i])
    ensures forall k :: k in L.BookOf(Reconcile(t, rr).ledger) ==>
              && k in L.BookOf(Reconcile(t, ss).ledger)
              && L.BookOf(Reconcile(t, ss).ledger)[k] == L.BookOf(Reconcile(t, rr).ledger)[k]
  {
    hide L.BookOf, L.Integrity, Reconcile;
    ReconcileKeeps(t, ss);
    ReconcileKeeps(t, rr);
    forall k | k in L.BookOf(Reconcile(t, rr).ledger)
      ensures k in L.BookOf(Reconcile(t, ss).ledger)
      ensures L.BookOf(Reconcile(t, ss).ledger)[k] == L.BookOf(Reconcile(t, rr).ledger)[k]
    {
      KeyContained(t, ss, rr, k);
    }
  }

  /** Moving one settlement to the front. */
  function ToFront(ss: seq<Settlement>, i: nat): seq<Settlement>
    requires i < |ss|
  {
    [ss[i]] + (ss[..i] + ss[i + 1..])
  }

  lemma ToFrontPermutes(ss: seq<Settlement>, i: nat)
    requires i < |ss|
    ensures Permutes(ss, ToFront(ss, i))
  {
    assert ss == ss[..i] + ([ss[i]] + ss[i + 1..]);
  }

  /** The first settlement of a batch decides its own fee entry. */
  lemma FrontDecides(t: L.Tables, ss: seq<Settlement>, i: nat)
    requires L.Integrity(t) && i < |ss| && ss[i].fee > 0 && FeeKey(ss[i]) !in L.BookOf(t)
    requires forall j :: 0 <= j < |ss| ==> !Throws(ss[j])
    ensures FeeKey(ss[i]) in L.BookOf(Reconcile(t, ToFront(ss, i)).ledger)
    ensures L.BookOf(Reconcile(t, ToFront(ss, i)).ledger)[FeeKey(ss[i])] == FeeEntry(ss[i])
  {
    var rest := ss[..i] + ss[i + 1..];
    ReconcileSplit(t, [ss[i]], rest);
    FeeEntryFits(ss[i]);
    L.PostRefines(t, FeeKey(ss[i]), FeeEntry(ss[i]));
    assert Reconcile(t, [ss[i]][..0]) == Pass(t, 0, [], false);
    var p := Reconcile(t, [ss[i]]);
    assert p == Settle(Pass(t, 0, [], false), ss[i]);
    ReconcileKeeps(t, [ss[i]]);
    ReconcileKeeps(p.ledger, rest);
  }

  /** The order of a batch is invisible in the ledger exactly when equal ids carry equal fees. */
  lemma OrderFreeIffOneFeePerId(t: L.Tables, ss: seq<Settlement>)
    requires L.Integrity(t) && forall i :: 0 <= i < |ss| ==> !Throws(ss[i])
    ensures OrderFree(t, ss) <==> OneFeePerId(t, ss)
  {
    hide L.BookOf, L.Integrity, Reconcile;
    if OneFeePerId(t, ss) {
      forall rr | Permutes(ss, rr)
        ensures L.BookOf(Reconcile(t, rr).ledger) == L.BookOf(Reconcile(t, ss).ledger)
      {
        SameThrows(ss, rr);
        SameFees(t, ss, rr);
        BookContained(t, ss, rr);
        BookContained(t, rr, ss);
      }
    } else if OrderFree(t, ss) {
      var i, j :| 0 <= i < |ss| && 0 <= j < |ss| && ss[i].fee > 0 && ss[j].fee > 0
                  && ss[i].balanceTxnId == ss[j].balanceTxnId && FeeKey(ss[i]) !in L.BookOf(t)
                  && !(ss[i].fee == ss[j].fee && ss[i].currency == ss[j].currency);
      FeeEntriesDiffer(ss[i], ss[j]);
      ToFrontPermutes(ss, i);
      ToFrontPermutes(ss, j);
      FrontDecides(t, ss, i);
      FrontDecides(t, ss, j);
    }
  }

  lemma FeeEntriesDiffer(s: Settlement, r: Settlement)
    requires !(s.fee == r.fee && s.currency == r.currency)
    ensures FeeEntry(s) != FeeEntry(r)
  {
  }

  lemma SameFees(t: L.Tables, ss: seq<Settlement>, rr: seq<Settlement>)
    requires Permutes(ss, rr) && OneFeePerId(t, ss)
    ensures OneFeePerId(t, rr)
  {
    forall i, j | 0 <= i < |rr| && 0 <= j < |rr| && rr[i].fee > 0 && rr[j].fee > 0
                  && rr[i].balanceTxnId == rr[j].balanceTxnId && FeeKey(rr[i]) !in L.BookOf(t)
      ensures rr[i].fee == rr[j].fee && rr[i].currency == rr[j].currency
    {
      var m := PermutedSettlement(rr, ss, i);
      var n := PermutedSettlement(rr, ss, j);
    }
  }

  // ---------------------------------------------------------- fee accounting

  function FeesBalance(t: L.Tables): int {
    L.AccountBalance(t.postings, L.Fees)
  }

  /** What a pass reports as posted is the exact change of the fees balance. */
  lemma {:induction false} FeesAreBalanceChange(t: L.Tables, ss: seq<Settlement>)
    ensures FeesBalance(Reconcile(t, ss).ledger) == FeesBalance(t) + Reconcile(t, ss).fees
    ensures Reconcile(t, ss).fees >= 0
    decreases |ss|
  {
    if ss != [] {
      var n := |ss| - 1;
      FeesAreBalanceChange(t, ss[..n]);
      L.PostMovesBalance(Reconcile(t, ss[..n]).ledger, FeeKey(ss[n]), FeeEntry(ss[n]), L.Fees);
      L.TemplateSums(L.Fee, ss[n].fee, L.Fees);
    }
  }

  // --------------------------------------------------------------- run history

  const ERROR_TEXT_MAX := 500

  datatype RunRow =
    | OkRun(ranAt: int, checked: nat, fees: int, discrepancies: seq<Discrepancy>)
    | FailedRun(ranAt: int, error: string)

  datatype History = History(ledger: L.Tables, runs: seq<RunRow>)

  /**
   One run: the batch (none when the listing threw), how many settlements were
   processed before a database failure, whether the success insert failed,
   whether recording the failure failed as well, and the error text.
   */
  datatype Attempt = Attempt(batch: Option<seq<Settlement>>, failAt: nat, insertFails: bool,
                             recordFails: bool, ranAt: int, message: string)

  function Truncated(message: string): string {
    if |message| <= ERROR_TEXT_MAX then message else message[..ERROR_TEXT_MAX]
  }

  /** The settlements a run got through. */
  function Processed(a: Attempt): seq<Settlement> {
    match a.batch
    case None => []
    case Some(ss) => if a.failAt < |ss| then ss[..a.failAt] else ss
  }

  predicate Succeeds(t: L.Tables, a: Attempt) {
    a.batch.Some? && a.failAt >= |a.batch.value| && !Reconcile(t, a.batch.value).failed && !a.insertFails
  }

  /** A successful run leaves an ok row; a failed one leaves its fees and, if that works, a failed row. */
  function Run(h: History, a: Attempt): History {
    var p := Reconcile(h.ledger, Processed(a));
    History(p.ledger,
            h.runs + if Succeeds(h.ledger, a) then [OkRun(a.ranAt, |Processed(a)|, p.fees, p.discrepancies)]
                     else if a.recordFails then []
                     else [FailedRun(a.ranAt, Truncated(a.message))])
  }

  /** What else happens to the ledger between runs: a charge, a refund or a dispute is posted. */
  datatype Step = Reconciling(attempt: Attempt) | Posting(key: L.Key, currency: string, amount: int)

  predicate ValidStep(s: Step) {
    s.Posting? ==> s.key.kind in {L.Charge, L.Refund, L.Dispute}
  }

  function Next(h: History, s: Step): History {
    match s
    case Reconciling(a) => Run(h, a)
    case Posting(k, c, amount) => h.(ledger := L.Post(h.ledger, k, L.Entry(c, L.Template(k.kind, amount))).1)
  }

  function After(h: History, steps: seq<Step>): History {
    Fold(Next, h, steps)
  }

  /** The fees recorded on ok rows. */
  function RecordedFees(runs: seq<RunRow>): int {
    if runs == [] then
      0
    else
      var last := runs[|runs| - 1];
      RecordedFees(runs[..|runs| - 1]) + if last.OkRun? then last.fees else 0
  }

  /** The fees that failed runs had already posted when they failed. */
  function UnrecordedFees(h: History, steps: seq<Step>): int {
    if steps == [] then
      0
    else
      UnrecordedFees(h, steps[..|steps| - 1])
      + Unrecorded(After(h, steps[..|steps| - 1]).ledger, steps[|steps| - 1])
  }

  lemma RecordedFeesGrow(runs: seq<RunRow>, row: RunRow)
    ensures RecordedFees(runs + [row]) == RecordedFees(runs) + if row.OkRun? then row.fees else 0
  {
  }

  /**
   Over any history, the fees balance is what the ok rows recorded plus what
   failed runs posted; so the recorded sum never exceeds it, and equals it
   exactly when no failed run had posted a fee.
   */
  lemma {:induction false} FeesAccounted(h: History, steps: seq<Step>)
    requires forall i :: 0 <= i < |steps| ==> ValidStep(steps[i])
    ensures FeesBalance(After(h, steps).ledger) - FeesBalance(h.ledger)
         == RecordedFees(After(h, steps).runs) - RecordedFees(h.runs) + UnrecordedFees(h, steps)
    ensures UnrecordedFees(h, steps) >= 0
    decreases |steps|
  {
    if steps != [] {
      var n := |steps| - 1;
      FeesAccounted(h, steps[..n]);
      assert ValidStep(steps[n]);
      StepAccounted(After(h, steps[..n]), steps[n]);
    }
  }

  /** What one step leaves unrecorded. */
  function Unrecorded(t: L.Tables, s: Step): int {
    match s
    case Reconciling(a) => if Succeeds(t, a) then 0 else Reconcile(t, Processed(a)).fees
    case Posting(_, _, _) => 0
  }

  lemma StepAccounted(h: History, s: Step)
    requires ValidStep(s)
    ensures FeesBalance(Next(h, s).ledger) - FeesBalance(h.ledger)
         == RecordedFees(Next(h, s).runs) - RecordedFees(h.runs) + Unrecorded(h.ledger, s)
    ensures Unrecorded(h.ledger, s) >= 0
  {
    hide Reconcile, L.Post, Succeeds, Processed, FeesBalance, RecordedFees, Truncated;
    match s {
      case Reconciling(a) =>
        var p := Reconcile(h.ledger, Processed(a));
        FeesAreBalanceChange(h.ledger, Processed(a));
        RecordedFeesGrow(h.runs, OkRun(a.ranAt, |Processed(a)|, p.fees, p.discrepancies));
        RecordedFeesGrow(h.runs, FailedRun(a.ranAt, Truncated(a.message)));
        assert h.runs + [] == h.runs;
      case Posting(k, c, amount) =>
        OtherPostsKeepFees(h.ledger, k, c, amount);
    }
  }

  lemma {:induction false} NothingUnrecorded(h: History, steps: seq<Step>)
    requires forall i :: 0 <= i < |steps| ==> ValidStep(steps[i])
    ensures UnrecordedFees(h, steps) == 0
       <==> forall i :: 0 <= i < |steps| ==> Unrecorded(After(h, steps[..i]).ledger, steps[i]) == 0
    decreases |steps|
  {
    hide Unrecorded, Next, After, FeesBalance, RecordedFees, ValidStep;
    if steps != [] {
      var n := |steps| - 1;
      NothingUnrecorded(h, steps[..n]);
      FeesAccounted(h, steps[..n]);
      StepAccounted(After(h, steps[..n]), steps[n]);
      assert forall i :: 0 <= i < n ==> steps[..n][..i] == steps[..i] && steps[..n][i] == steps[i];
    }
  }

  /**
   The recorded fees never exceed the balance, and equal it exactly when every
   failed run had posted nothing by the time it failed.
   */
  lemma {:induction false} RecordedWithinBalance(h: History, steps: seq<Step>)
    requires forall i :: 0 <= i < |steps| ==> ValidStep(steps[i])
    requires FeesBalance(h.ledger) == RecordedFees(h.runs)
    ensures RecordedFees(After(h, steps).runs) <= FeesBalance(After(h, steps).ledger)
    ensures RecordedFees(After(h, steps).runs) == FeesBalance(After(h, steps).ledger)
       <==> forall i :: 0 <= i < |steps| ==> Unrecorded(After(h, steps[..i]).ledger, steps[i]) == 0
  {
    hide Unrecorded, UnrecordedFees, After, FeesBalance, RecordedFees, ValidStep;
    FeesAccounted(h, steps);
    NothingUnrecorded(h, steps);
  }

  lemma OtherPostsKeepFees(t: L.Tables, k: L.Key, c: string, amount: int)
    requires k.kind in {L.Charge, L.Refund, L.Dispute}
    ensures FeesBalance(L.Post(t, k, L.Entry(c, L.Template(k.kind, amount))).1) == FeesBalance(t)
  {
    L.PostMovesBalance(t, k, L.Entry(c, L.Template(k.kind, amount)), L.Fees);
    L.TemplateSums(k.kind, amount, L.Fees);
  }

  // ------------------------------------------------------------- the watermark

  const OVERLAP_S := 3600
  const MAX_PAGES := 10
  const PAGE_SIZE := 100

  /** The newest successful run's time. */
  function NewestOk(runs: seq<RunRow>): Option<int> {
    if runs == [] then
      None
    else
      var rest := NewestOk(runs[..|runs| - 1]);
      var last := runs[|runs| - 1];
      if last.OkRun? && (rest.None? || rest.value < last.ranAt) then Some(last.ranAt) else rest
  }

  /** The oldest creation second the next run asks for; none before the first successful run. */
  function WindowStart(runs: seq<RunRow>): Option<int> {
    match NewestOk(runs)
    case None => None
    case Some(ranAt) => Some(ranAt / 1000 - OVERLAP_S)
  }

  /** Failed runs never move the window. */
  lemma {:induction false} NewestOkIsNewest(runs: seq<RunRow>)
    ensures NewestOk(runs).None? <==> forall i :: 0 <= i < |runs| ==> runs[i].FailedRun?
    ensures NewestOk(runs).Some? ==>
              && (exists i :: 0 <= i < |runs| && runs[i].OkRun? && runs[i].ranAt == NewestOk(runs).value)
              && (forall i :: 0 <= i < |runs| && runs[i].OkRun? ==> runs[i].ranAt <= NewestOk(runs).value)
    decreases |runs|
  {
    if runs != [] {
      var n := |runs| - 1;
      NewestOkIsNewest(runs[..n]);
      assert forall i :: 0 <= i < n ==> runs[..n][i] == runs[i];
      assert NewestOk(runs[..n]).None? && runs[n].FailedRun? ==> NewestOk(runs).None?;
      if NewestOk(runs[..n]).Some? {
        var i :| 0 <= i < n && runs[..n][i].OkRun? && runs[..n][i].ranAt == NewestOk(runs[..n]).value;
        assert runs[i].OkRun? && runs[i].ranAt == NewestOk(runs[..n]).value;
      }
      if forall i :: 0 <= i < n ==> runs[i].FailedRun? {
        assert forall i :: 0 <= i < n ==> runs[..n][i].FailedRun?;
      }
    }
  }

  /** What a listing must return, given the list as its first call found it. */
  function Listing(runs: seq<RunRow>, snapshot: seq<BalanceTxn>): Option<seq<BalanceTxn>> {
    var w := V.Window(snapshot, WindowStart(runs));
    if NewestOk(runs).None? then
      Some(if |w| <= PAGE_SIZE then w else w[..PAGE_SIZE])
    else if |w| <= MAX_PAGES * PAGE_SIZE then
      Some(w)
    else
      None
  }

  // -------------------------------------------------------------- the handle

  class Reconciler {
    const ledger: L.Store
    var runs: seq<RunRow>

    function Books(): History
      reads this, ledger
    {
      History(ledger.Contents(), runs)
    }

    constructor (ledger: L.Store)
      ensures this.ledger == ledger && runs == []
    {
      this.ledger, runs := ledger, [];
    }

    /** The loop over settlements; it stops early, throwing, at `failAt` or when a post throws. */
    method ReconcileBatch(ss: seq<Settlement>, failAt: nat)
      returns (fees: int, discrepancies: seq<Discrepancy>, threw: bool)
      modifies ledger
      ensures var p := Reconcile(old(ledger.Contents()), if failAt < |ss| then ss[..failAt] else ss);
              && ledger.Contents() == p.ledger && fees == p.fees && discrepancies == p.discrepancies
              && threw == (p.failed || failAt < |ss|)
    {
      hide Reconcile, L.BookOf, L.HasKey, L.Imbalance, Verdict;
      fees, discrepancies, threw := 0, [], false;
      ReconcileNothing(ledger.Contents(), ss);
      for i := 0 to |ss|
        invariant i <= failAt
        invariant Pass(ledger.Contents(), fees, discrepancies, false) == Reconcile(old(ledger.Contents()), ss[..i])
      {
        ReconcileOneMore(old(ledger.Contents()), ss, i);
        if i == failAt {
          return fees, discrepancies, true;
        }
        var settlement := ss[i];
        if settlement.fee > 0 {
          var r := ledger.PostEntry(FeeKey(settlement), settlement.currency,
                                    [L.Posting(L.Fees, settlement.fee),
                                     L.Posting(L.StripeReceivable, -settlement.fee)]);
          if r == L.Raised {
            StopsHere(old(ledger.Contents()), ss, i, failAt);
            return fees, discrepancies, true;
          }
          if r == L.Posted {
            fees := fees + settlement.fee;
          }
        }
        discrepancies := discrepancies + Verdict(L.BookOf(ledger.Contents()), settlement);
      }
      assert ss[..|ss|] == ss;
    }

    /**
     Earlier rows stay; the new one is a failure with the start of the message, whole if
     it is short enough. The next window and the recorded fees do not see it.
     */
    method RecordFailedRun(ranAt: int, message: string)
      modifies `runs
      ensures runs == old(runs) + [FailedRun(ranAt, Truncated(message))]
      ensures runs[|old(runs)|].error <= message && |runs[|old(runs)|].error| <= ERROR_TEXT_MAX
      ensures |message| <= ERROR_TEXT_MAX ==> runs[|old(runs)|].error == message
      ensures WindowStart(runs) == WindowStart(old(runs)) && RecordedFees(runs) == RecordedFees(old(runs))
    {
      RecordedFeesGrow(runs, FailedRun(ranAt, Truncated(message)));
      runs := runs + [FailedRun(ranAt, Truncated(message))];
    }

    /**
     The paging loop. Whatever arrives at the provider between the calls, the
     result is the window of the first call's list, complete and in order, or a
     throw; at most ten calls are made.
     */
    method ListBalanceTransactions(client: V.Client) returns (txns: Option<seq<BalanceTxn>>, ghost snapshot: seq<BalanceTxn>)
      requires client.Valid()
      modifies client
      ensures client.Valid()
      ensures snapshot == (if old(client.future) == [] then [] else old(client.future)[0]) + old(client.txns)
      ensures txns == Listing(runs, snapshot)
      ensures old(client.calls) < client.calls <= old(client.calls) + MAX_PAGES
    {
      hide V.Window, V.DistinctIds, NewestOk;
      var lastOk := NewestOk(runs);
      var gte := WindowStart(runs);
      var page := client.List(gte, None, PAGE_SIZE);
      snapshot := client.txns;
      FirstPage(snapshot, gte);
      ghost var w := V.Window(snapshot, gte);
      var got := page.data;
      if lastOk.None? {
        return Some(got), snapshot;
      }
      var pages := 1;
      ghost var newer: seq<BalanceTxn> := [];
      assert client.txns == newer + snapshot;
      while page.hasMore
        invariant 1 <= pages <= MAX_PAGES && client.calls == old(client.calls) + pages
        invariant client.Valid() && V.DistinctIds(client.txns) && client.txns == newer + snapshot
        invariant |got| <= |w| && got == w[..|got|]
        invariant page.hasMore <==> |got| < |w|
        invariant page.hasMore ==> |got| == pages * PAGE_SIZE && page.data != []
                                   && page.data[|page.data| - 1] == got[|got| - 1]
        invariant |got| <= pages * PAGE_SIZE
        decreases MAX_PAGES - pages
      {
        if pages >= MAX_PAGES {
          return None, snapshot;
        }
        newer := (if client.future == [] then [] else client.future[0]) + newer;
        page := client.List(gte, Some(page.data[|page.data| - 1].id), PAGE_SIZE);
        assert client.txns == newer + snapshot;
        NextPage(newer, snapshot, gte, |got|);
        got := got + page.data;
        pages := pages + 1;
      }
      assert got == w;
      txns := Some(got);
    }

    /** Lists, reconciles, records. The result says whether the run succeeded. */
    method RunAndRecord(client: V.Client, failAt: nat, insertFails: bool, recordFails: bool, ranAt: int,
                        message: string) returns (ok: bool, ghost attempt: Attempt, ghost snapshot: seq<BalanceTxn>)
      requires client.Valid()
      modifies client, ledger, `runs
      ensures client.Valid()
      ensures snapshot == (if old(client.future) == [] then [] else old(client.future)[0]) + old(client.txns)
      ensures attempt == Attempt(match Listing(old(runs), snapshot)
                                 case None => None
                                 case Some(txns) => Some(Settlements(txns)),
                                 failAt, insertFails, recordFails, ranAt, message)
      ensures Books() == Run(old(Books()), attempt)
      ensures ok == Succeeds(old(ledger.Contents()), attempt)
    {
      var txns;
      txns, snapshot := ListBalanceTransactions(client);
      if txns.None? {
        attempt := Attempt(None, failAt, insertFails, recordFails, ranAt, message);
        ok := false;
      } else {
        var ss := Settlements(txns.value);
        attempt := Attempt(Some(ss), failAt, insertFails, recordFails, ranAt, message);
        var fees, discrepancies, threw := ReconcileBatch(ss, failAt);
        ok := !threw && !insertFails;
        if ok {
          runs := runs + [OkRun(ranAt, |ss|, fees, discrepancies)];
        }
      }
      if !ok && !recordFails {
        RecordFailedRun(ranAt, message);
      }
    }
  }

  /** The page after a cursor continues the first snapshot, whatever was added in front. */
  lemma NextPage(newer: seq<BalanceTxn>, snapshot: seq<BalanceTxn>, gte: Option<int>, got: nat)
    requires V.DistinctIds(newer + snapshot)
    requires 0 < got < |V.Window(snapshot, gte)|
    ensures var w := V.Window(snapshot, gte);
            var page := V.PageOf(newer + snapshot, gte, Some(w[got - 1].id), PAGE_SIZE);
            && page.data != [] && got + |page.data| <= |w|
            && w[..got] + page.data == w[..got + |page.data|]
            && (page.hasMore <==> got + |page.data| < |w|)
            && (page.hasMore ==> |page.data| == PAGE_SIZE)
            && |page.data| <= PAGE_SIZE
            && page.data[|page.data| - 1] == w[got + |page.data| - 1]
  {
    hide V.Window, V.DistinctIds;
    var w := V.Window(snapshot, gte);
    V.WindowSplit(newer, snapshot, gte);
    V.WindowIds(newer + snapshot, gte);
    V.AfterCursor(V.Window(newer, gte), w, got - 1);
  }

  /** The first page is the start of the window. */
  lemma FirstPage(snapshot: seq<BalanceTxn>, gte: Option<int>)
    ensures var w, page := V.Window(snapshot, gte), V.PageOf(snapshot, gte, None, PAGE_SIZE);
            && |page.data| <= PAGE_SIZE && |page.data| <= |w| && page.data == w[..|page.data|]
            && (page.hasMore <==> |page.data| < |w|)
            && (page.hasMore ==> |page.data| == PAGE_SIZE)
  {
    hide V.Window;
  }

  lemma ReconcileNothing(t: L.Tables, ss: seq<Settlement>)
    ensures Reconcile(t, ss[..0]) == Pass(t, 0, [], false)
  {
  }

  lemma ReconcileOneMore(t: L.Tables, ss: seq<Settlement>, i: nat)
    requires i < |ss|
    ensures Reconcile(t, ss[..i + 1]) == Settle(Reconcile(t, ss[..i]), ss[i])
  {
    hide Settle;
    assert ss[..i + 1][..i] == ss[..i];
  }

  /** Once a pass threw, later settlements of the batch do not matter. */
  lemma StopsHere(t: L.Tables, ss: seq<Settlement>, i: nat, failAt: nat)
    requires i < |ss| && i < failAt
    requires Settle(Reconcile(t, ss[..i]), ss[i]).failed
    ensures Reconcile(t, if failAt < |ss| then ss[..failAt] else ss) == Settle(Reconcile(t, ss[..i]), ss[i])
  {
    hide Settle;
    var all := if failAt < |ss| then ss[..failAt] else ss;
    var rest := all[i + 1..];
    assert all == ss[..i + 1] + rest;
    assert ss[..i + 1][..i] == ss[..i];
    ReconcileSplit(t, ss[..i + 1], rest);
  }
}
