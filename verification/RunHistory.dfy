/**
 What the reconciliation history records: which rows a run adds, what an ok row says of
 its batch and of the ledger it started from, and what a report says of the payments.
 */
module RunHistory {
  import opened Prelude
  import L = Ledger
  import M = StripeMapping
  import P = Payments
  import V = Provider
  import B = Books
  import opened R = Reconciliation

  // ------------------------------------------------------- one run, one row

  /** Posting this settlement's fee throws: it has a fee, in a malformed currency. */
  predicate FeeThrows(s: M.Settlement) {
    s.fee > 0 && |s.currency| != 3
  }

  /** The run lists a batch, gets through it, and its success is recorded. */
  predicate GetsThrough(a: Attempt) {
    && a.batch.Some? && a.failAt >= |a.batch.value| && !a.insertFails
    && forall i :: 0 <= i < |a.batch.value| ==> !FeeThrows(a.batch.value[i])
  }

  /** The discrepancies of the settlements against one ledger, in order. */
  function Found(book: L.Book, ss: seq<M.Settlement>): seq<Discrepancy> {
    if ss == [] then [] else Found(book, ss[..|ss| - 1]) + Verdict(book, ss[|ss| - 1])
  }

  lemma {:induction false} FoundIsVerdicts(book: L.Book, ss: seq<M.Settlement>)
    ensures Found(book, ss) == Verdicts(book, ss)
    decreases |ss|
  {
    if ss != [] {
      FoundIsVerdicts(book, ss[..|ss| - 1]);
    }
  }

  /** The row of a run that went through: its batch's size, its time, the fees it added to the balance, all it found. */
  predicate OkRowOf(row: RunRow, a: Attempt, before: L.Tables, after: L.Tables) {
    && GetsThrough(a) && row.OkRun? && row.ranAt == a.ranAt && row.checked == |a.batch.value|
    && row.fees == FeesBalance(after) - FeesBalance(before)
    && row.discrepancies == Found(L.BookOf(before), a.batch.value)
  }

  /** The row of a failed run: its time, and the start of the message, whole up to five hundred characters. */
  predicate FailedRowOf(row: RunRow, a: Attempt) {
    && row.FailedRun? && row.ranAt == a.ranAt && row.error <= a.message
    && |row.error| == if |a.message| <= 500 then |a.message| else 500
  }

  /** A run adds one row, ok or failed, or none if recording the failure failed as well. */
  lemma RunAddsRow(h: History, a: Attempt)
    requires L.Integrity(h.ledger)
    ensures var h' := Run(h, a);
            && |h'.runs| <= |h.runs| + 1 && h.runs <= h'.runs
            && (h'.runs == h.runs <==> !GetsThrough(a) && a.recordFails)
            && (GetsThrough(a) ==> OkRowOf(h'.runs[|h.runs|], a, h.ledger, h'.ledger))
            && (!GetsThrough(a) && !a.recordFails ==> FailedRowOf(h'.runs[|h.runs|], a))
  {
    hide Reconcile, L.Integrity, FeesBalance, Found, Verdict, L.BookOf;
    ReconcileKeeps(h.ledger, Processed(a));
    if a.batch.Some? {
      ReconcileKeeps(h.ledger, a.batch.value);
      ThrowsIs(a.batch.value);
    }
    if GetsThrough(a) {
      ReportIsVerdicts(h.ledger, a.batch.value);
      FoundIsVerdicts(L.BookOf(h.ledger), a.batch.value);
      FeesAreBalanceChange(h.ledger, a.batch.value);
    }
  }

  lemma ThrowsIs(ss: seq<M.Settlement>)
    ensures (exists i :: 0 <= i < |ss| && Throws(ss[i])) <==> !(forall i :: 0 <= i < |ss| ==> !FeeThrows(ss[i]))
  {
    assert forall s :: Throws(s) == FeeThrows(s);
  }

  /** Step `n` of a history is the run that added this row. */
  ghost predicate AddedBy(h: History, steps: seq<Step>, n: int, row: RunRow) {
    && 0 <= n < |steps| && steps[n].Reconciling?
    && (if row.OkRun?
        then OkRowOf(row, steps[n].attempt, After(h, steps[..n]).ledger, After(h, steps[..n + 1]).ledger)
        else !GetsThrough(steps[n].attempt) && FailedRowOf(row, steps[n].attempt))
  }

  lemma {:induction false} AfterKeepsIntegrity(h: History, steps: seq<Step>)
    requires L.Integrity(h.ledger)
    ensures L.Integrity(After(h, steps).ledger)
    decreases |steps|
  {
    hide L.Integrity, L.Post, Reconcile, L.BookOf;
    if steps != [] {
      var n := |steps| - 1;
      AfterKeepsIntegrity(h, steps[..n]);
      var g := After(h, steps[..n]);
      match steps[n] {
        case Reconciling(a) => ReconcileKeeps(g.ledger, Processed(a));
        case Posting(k, c, amount) => L.PostKeepsIntegrity(g.ledger, k, L.Entry(c, L.Template(k.kind, amount)));
      }
    }
  }

  /** Over any history, every row beyond the first ones was added by one run, and says what that run did. */
  lemma {:induction false} RowsTellRuns(h: History, steps: seq<Step>, k: nat)
    requires L.Integrity(h.ledger) && |h.runs| <= k < |After(h, steps).runs|
    ensures exists n :: AddedBy(h, steps, n, After(h, steps).runs[k])
    decreases |steps|
  {
    hide L.Integrity, Run, GetsThrough, FeesBalance, Found, L.BookOf;
    var n := |steps| - 1;
    var before := steps[..n];
    var g := After(h, before);
    assert steps[..n + 1] == steps;
    AfterKeepsIntegrity(h, before);
    if steps[n].Reconciling? {
      RunAddsRow(g, steps[n].attempt);
    }
    if k < |g.runs| {
      RowsTellRuns(h, before, k);
      var m :| AddedBy(h, before, m, g.runs[k]);
      assert before[..m] == steps[..m] && before[..m + 1] == steps[..m + 1] && before[m] == steps[m];
      assert AddedBy(h, steps, m, After(h, steps).runs[k]);
    } else {
      assert AddedBy(h, steps, n, After(h, steps).runs[k]);
    }
  }

  // ------------------------------------------- the report and the payments

  /**
   What a settlement's report says of the payment it settles, without the ledger: a
   missing charge, another currency with both, another amount with both, or nothing.
   */
  function Finding(rows: P.Rows, s: M.Settlement): seq<Discrepancy> {
    if s.intentId.None? || s.intentId.value == "" then []
    else
      var i := s.intentId.value;
      if i !in rows || rows[i].status != P.Succeeded then [Discrepancy(i, s.amount, MissingFromLedger)]
      else if s.converted then []
      else if rows[i].currency != s.currency then [Discrepancy(i, s.amount, CurrencyMismatch(rows[i].currency, s.currency))]
      else if rows[i].amount != s.amount then [Discrepancy(i, s.amount, AmountMismatch(rows[i].amount, s.amount))]
      else []
  }

  function Findings(rows: P.Rows, ss: seq<M.Settlement>): seq<Discrepancy> {
    if ss == [] then [] else Findings(rows, ss[..|ss| - 1]) + Finding(rows, ss[|ss| - 1])
  }

  lemma VerdictIsFinding(s: B.State, x: M.Settlement)
    requires B.Agree(s)
    ensures Verdict(L.BookOf(s.db.ledger), x) == Finding(s.db.rows, x)
  {
    hide L.BookOf, L.Integrity, L.Shaped, P.Indexed;
  }

  lemma {:induction false} FoundIsFindings(s: B.State, ss: seq<M.Settlement>)
    requires B.Agree(s)
    ensures Found(L.BookOf(s.db.ledger), ss) == Findings(s.db.rows, ss)
    decreases |ss|
  {
    hide B.Agree, Verdict, Finding, L.BookOf;
    if ss != [] {
      FoundIsFindings(s, ss[..|ss| - 1]);
      VerdictIsFinding(s, ss[|ss| - 1]);
    }
  }

  /** In every reachable state, a pass reports of its batch, in order, what the payment rows say of it. */
  lemma ReportIsFindings(steps: seq<B.Step>, ss: seq<M.Settlement>)
    requires !Reconcile(B.After(steps).db.ledger, ss).failed
    ensures Reconcile(B.After(steps).db.ledger, ss).discrepancies == Findings(B.After(steps).db.rows, ss)
  {
    hide B.Agree, Reconcile, Found, Findings, L.BookOf;
    var s := B.After(steps);
    B.AlwaysAgree(steps);
    B.AgreeIsUnique(s);
    ReportIsVerdicts(s.db.ledger, ss);
    FoundIsVerdicts(L.BookOf(s.db.ledger), ss);
    FoundIsFindings(s, ss);
  }

  /** The three discrepancies of a checked settlement, each exactly when it applies. */
  lemma DiscrepancyIff(steps: seq<B.Step>, s: M.Settlement)
    requires s.intentId.Some? && s.intentId.value != "" && !Reconcile(B.After(steps).db.ledger, [s]).failed
    ensures var rows, i := B.After(steps).db.rows, s.intentId.value;
            var report := Reconcile(B.After(steps).db.ledger, [s]).discrepancies;
            && (report == [Discrepancy(i, s.amount, MissingFromLedger)] <==> !(i in rows && rows[i].status == P.Succeeded))
            && (i in rows && rows[i].status == P.Succeeded ==>
                  && (report == [Discrepancy(i, s.amount, CurrencyMismatch(rows[i].currency, s.currency))]
                      <==> !s.converted && rows[i].currency != s.currency)
                  && (report == [Discrepancy(i, s.amount, AmountMismatch(rows[i].amount, s.amount))]
                      <==> !s.converted && rows[i].currency == s.currency && rows[i].amount != s.amount)
                  && (report == []
                      <==> s.converted || (rows[i].currency == s.currency && rows[i].amount == s.amount)))
  {
    hide B.After, Reconcile, Finding, Findings;
    ReportIsFindings(steps, [s]);
    OneFinding(B.After(steps).db.rows, s);
    FindingSays(B.After(steps).db.rows, s);
  }

  lemma OneFinding(rows: P.Rows, s: M.Settlement)
    ensures Findings(rows, [s]) == Finding(rows, s)
  {
    assert [s][..0] == [];
    assert Findings(rows, [s]) == [] + Finding(rows, s);
  }

  lemma FindingSays(rows: P.Rows, s: M.Settlement)
    requires s.intentId.Some? && s.intentId.value != ""
    ensures var i := s.intentId.value;
            && (Finding(rows, s) == [Discrepancy(i, s.amount, MissingFromLedger)]
                <==> !(i in rows && rows[i].status == P.Succeeded))
            && (i in rows && rows[i].status == P.Succeeded ==>
                  && (Finding(rows, s) == [Discrepancy(i, s.amount, CurrencyMismatch(rows[i].currency, s.currency))]
                      <==> !s.converted && rows[i].currency != s.currency)
                  && (Finding(rows, s) == [Discrepancy(i, s.amount, AmountMismatch(rows[i].amount, s.amount))]
                      <==> !s.converted && rows[i].currency == s.currency && rows[i].amount != s.amount)
                  && (Finding(rows, s) == []
                      <==> s.converted || (rows[i].currency == s.currency && rows[i].amount == s.amount)))
  {
  }

  /**
   The row a run records over the books: it went through, so it carries what the payment
   rows said of its batch; free of discrepancies exactly when the whole batch was settled.
   */
  lemma RecordedReport(steps: seq<B.Step>, runs: seq<RunRow>, a: Attempt)
    requires GetsThrough(a)
    ensures var s := B.After(steps);
            var h' := Run(History(s.db.ledger, runs), a);
            && |h'.runs| == |runs| + 1 && h'.runs[|runs|].OkRun?
            && h'.runs[|runs|].discrepancies == Findings(s.db.rows, a.batch.value)
            && (h'.runs[|runs|].discrepancies == []
                <==> forall i :: 0 <= i < |a.batch.value| ==> B.Settled(s.db.rows, a.batch.value[i]))
  {
    hide B.Agree, B.After, Run, Findings, Found, FeeThrows, FeesBalance, L.BookOf, L.Integrity, B.Settled;
    var s := B.After(steps);
    B.AlwaysAgree(steps);
    B.AgreeIsUnique(s);
    RunAddsRow(History(s.db.ledger, runs), a);
    FoundIsFindings(s, a.batch.value);
    NothingFoundIff(s.db.rows, a.batch.value);
  }

  lemma {:induction false} NothingFoundIff(rows: P.Rows, ss: seq<M.Settlement>)
    ensures Findings(rows, ss) == [] <==> forall i :: 0 <= i < |ss| ==> B.Settled(rows, ss[i])
    decreases |ss|
  {
    hide B.Settled, Finding;
    if ss != [] {
      var n := |ss| - 1;
      NothingFoundIff(rows, ss[..n]);
      FindingIff(rows, ss[n]);
      assert forall i :: 0 <= i < n ==> ss[..n][i] == ss[i];
    }
  }

  lemma FindingIff(rows: P.Rows, s: M.Settlement)
    ensures Finding(rows, s) == [] <==> B.Settled(rows, s)
  {
  }

  // ----------------------------------------------------------------- fees

  /** The fee of a settlement, as it goes on the books. */
  function FeeOnBooks(s: M.Settlement): L.Entry {
    L.Entry(s.currency, [L.Posting(L.Fees, s.fee), L.Posting(L.StripeReceivable, -s.fee)])
  }

  /**
   What a pass that went through left on the books: everything that was there, and, for
   each new key, the fee of a settlement of the batch with that id; and no fee is missing.
   */
  lemma FeesOnBooks(t: L.Tables, ss: seq<M.Settlement>, k: L.Key)
    requires L.Integrity(t) && !Reconcile(t, ss).failed
    ensures var b, b' := L.BookOf(t), L.BookOf(Reconcile(t, ss).ledger);
            && (k in b ==> k in b' && b'[k] == b[k])
            && (k !in b ==>
                  && (k in b' <==> exists i :: 0 <= i < |ss| && ss[i].fee > 0 && k == L.Key(L.Fee, ss[i].balanceTxnId))
                  && (k in b' ==> exists i :: 0 <= i < |ss| && ss[i].fee > 0 && k == L.Key(L.Fee, ss[i].balanceTxnId)
                                              && b'[k] == FeeOnBooks(ss[i])))
  {
    hide L.BookOf, L.Integrity, Reconcile, FeeOnBooks, FeeEntry;
    ReconcileKeeps(t, ss);
    if k !in L.BookOf(t) {
      FeesTrack(t, ss, k);
      forall s ensures FeeEntry(s) == FeeOnBooks(s) {
        FeeIsOnBooks(s);
      }
    }
  }

  lemma FeeIsOnBooks(s: M.Settlement)
    ensures FeeEntry(s) == FeeOnBooks(s)
  {
  }

  // -------------------------------------------------------------- the listing

  lemma {:induction false} NoFilter(txns: seq<M.BalanceTxn>)
    ensures V.Window(txns, None) == txns
    decreases |txns|
  {
    if txns != [] {
      NoFilter(txns[1..]);
    }
  }

  /**
   What a listing returns: before the first ok run, the first hundred transactions of the
   list; after one at `t` ms, all those created from an hour before its second on, in
   order, or a throw if there are more than a thousand.
   */
  lemma ListingAnswers(runs: seq<RunRow>, listed: seq<M.BalanceTxn>)
    ensures (forall i :: 0 <= i < |runs| ==> runs[i].FailedRun?) ==>
              Listing(runs, listed) == Some(if |listed| <= 100 then listed else listed[..100])
    ensures forall t :: NewestAt(runs, t) ==>
              var window := V.Window(listed, Some(t / 1000 - 3600));
              Listing(runs, listed) == if |window| <= 1000 then Some(window) else None
  {
    hide V.Window, NewestOk;
    NewestOkIsNewest(runs);
    NoFilter(listed);
  }

  /** The latest ok run was at `t`. */
  predicate NewestAt(runs: seq<RunRow>, t: int) {
    && (exists i :: 0 <= i < |runs| && runs[i].OkRun? && runs[i].ranAt == t)
    && (forall i :: 0 <= i < |runs| && runs[i].OkRun? ==> runs[i].ranAt <= t)
  }
}
