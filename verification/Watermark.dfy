/**
 The reconciliation window over whole histories. Runs may overlap (the admin
 route and the scheduled job call the same function), fail, and finish in any
 order; each reads its window when it starts and records itself when it ends.
 */
module Watermark {
  import opened Prelude
  import M = StripeMapping
  import V = Provider
  import R = Reconciliation

  /**
   A started run: the time of its first page, in ms, its window in seconds, the
   provider's list at that time, and what its listing returned.
   */
  datatype Scan = Scan(snapshot: int, gte: Option<int>, listed: seq<M.BalanceTxn>, batch: Option<seq<M.BalanceTxn>>)

  /** A run that ended with an ok row. */
  datatype Done = Done(scan: Scan, ranAt: int)

  datatype State = State(runs: seq<R.RunRow>, open: map<nat, Scan>, done: seq<Done>)

  datatype Step =
    | Begin(id: nat, snapshot: int, listed: seq<M.BalanceTxn>)
    | Succeed(id: nat, ranAt: int)
    | Fail(id: nat, ranAt: int)

  const INIT := State([], map[], [])

  /** A step of a run that is not in progress does nothing, and a run whose listing threw cannot succeed. */
  function Next(s: State, step: Step): State {
    match step
    case Begin(id, snapshot, listed) => s.(open := s.open[id := Opened(s.runs, snapshot, listed)])
    case Succeed(id, ranAt) =>
      if id !in s.open || s.open[id].batch.None? then s
      else State(s.runs + [R.OkRun(ranAt, 0, 0, [])], s.open - {id}, s.done + [Done(s.open[id], ranAt)])
    case Fail(id, ranAt) =>
      if id !in s.open then s
      else s.(runs := s.runs + [R.FailedRun(ranAt, "")], open := s.open - {id})
  }

  function Opened(runs: seq<R.RunRow>, snapshot: int, listed: seq<M.BalanceTxn>): Scan {
    Scan(snapshot, R.WindowStart(runs), listed, R.Listing(runs, listed))
  }

  function After(steps: seq<Step>): State {
    Fold(Next, INIT, steps)
  }

  /** A transaction created at `m` ms is in the window and in the snapshot of a scan. */
  predicate Scans(s: Scan, m: int) {
    m <= s.snapshot && (s.gte.Some? ==> m / 1000 >= s.gte.value)
  }

  /** The run recorded itself soon enough after its first page for the overlap to reach back to it. */
  predicate Timely(d: Done) {
    d.ranAt / 1000 - R.OVERLAP_S <= (d.scan.snapshot + 1) / 1000
  }

  /** An hour is soon enough, whatever the sub-second parts. */
  lemma WithinAnHourIsTimely(d: Done)
    requires d.ranAt - d.scan.snapshot <= R.OVERLAP_S * 1000
    ensures Timely(d)
  {
  }

  /** And being timely is exact: it is what leaves no gap before the next run's window. */
  lemma TimelyIffNoGap(d: Done, next: int)
    requires d.scan.snapshot < next
    ensures Timely(d)
       <==> forall m :: d.scan.snapshot < m <= next ==> Scans(Opened([R.OkRun(d.ranAt, 0, 0, [])], next, []), m)
  {
    var rows := [R.OkRun(d.ranAt, 0, 0, [])];
    assert rows[..0] == [] && R.NewestOk(rows) == Some(d.ranAt);
    if !Timely(d) {
      assert !Scans(Opened(rows, next, []), d.scan.snapshot + 1);
    }
  }

  /** A failed run's row leaves every later window where it was. */
  lemma FailureKeepsWindow(runs: seq<R.RunRow>, ranAt: int, error: string)
    ensures R.WindowStart(runs + [R.FailedRun(ranAt, error)]) == R.WindowStart(runs)
  {
  }

  /** The window of a scan reaches back from one of the first `n` ok runs. */
  ghost predicate FromEarlier(s: State, scan: Scan, n: nat)
    requires n <= |s.done|
  {
    scan.gte.Some? ==> exists p :: 0 <= p < n && scan.gte.value == s.done[p].ranAt / 1000 - R.OVERLAP_S
  }

  ghost predicate Inv(s: State) {
    && (forall id :: id in s.open ==> FromEarlier(s, s.open[id], |s.done|))
    && (forall j :: 0 <= j < |s.done| ==> FromEarlier(s, s.done[j].scan, j))
    && (forall i :: 0 <= i < |s.runs| && s.runs[i].OkRun? ==>
          exists p :: 0 <= p < |s.done| && s.done[p].ranAt == s.runs[i].ranAt)
  }

  lemma NextKeepsInv(s: State, step: Step)
    requires Inv(s)
    ensures Inv(Next(s, step))
  {
    hide R.WindowStart, R.NewestOk, R.Listing;
    var s' := Next(s, step);
    match step {
      case Begin(id, snapshot, listed) =>
        WindowFromOk(s);
        assert FromEarlier(s', Opened(s.runs, snapshot, listed), |s.done|);
        forall j | 0 <= j < |s'.done| ensures FromEarlier(s', s'.done[j].scan, j) {
          assert FromEarlier(s, s.done[j].scan, j);
        }
      case Succeed(id, ranAt) =>
        if s'.done != s.done {
          forall scan, n: nat | n <= |s.done| && FromEarlier(s, scan, n) ensures FromEarlier(s', scan, n) {
            if scan.gte.Some? {
              var p :| 0 <= p < n && scan.gte.value == s.done[p].ranAt / 1000 - R.OVERLAP_S;
              assert s'.done[p] == s.done[p];
            }
          }
          assert s'.done[|s.done|].ranAt == ranAt;
          forall i | 0 <= i < |s'.runs| && s'.runs[i].OkRun?
            ensures exists p :: 0 <= p < |s'.done| && s'.done[p].ranAt == s'.runs[i].ranAt
          {
            if i < |s.runs| {
              var p :| 0 <= p < |s.done| && s.done[p].ranAt == s.runs[i].ranAt;
              assert s'.done[p] == s.done[p];
            }
          }
        }
      case Fail(id, ranAt) =>
        forall j | 0 <= j < |s'.done| ensures FromEarlier(s', s'.done[j].scan, j) {
          assert FromEarlier(s, s.done[j].scan, j);
        }
    }
  }

  lemma WindowFromOk(s: State)
    requires Inv(s)
    ensures R.WindowStart(s.runs).Some? ==>
              exists p :: 0 <= p < |s.done| && R.WindowStart(s.runs).value == s.done[p].ranAt / 1000 - R.OVERLAP_S
  {
    R.NewestOkIsNewest(s.runs);
    if R.NewestOk(s.runs).Some? {
      var i :| 0 <= i < |s.runs| && s.runs[i].OkRun? && s.runs[i].ranAt == R.NewestOk(s.runs).value;
      var p :| 0 <= p < |s.done| && s.done[p].ranAt == s.runs[i].ranAt;
    }
  }

  lemma {:induction false} AfterInv(steps: seq<Step>)
    ensures Inv(After(steps))
    decreases |steps|
  {
    if steps != [] {
      AfterInv(steps[..|steps| - 1]);
      NextKeepsInv(After(steps[..|steps| - 1]), steps[|steps| - 1]);
    }
  }

  /** Following windows back from a run that covers `m`, one of them must have scanned it. */
  lemma {:induction false} FirstCover(s: State, j: nat, m: int)
    requires Inv(s) && j < |s.done| && m <= s.done[j].scan.snapshot
    requires forall i :: 0 <= i < |s.done| ==> Timely(s.done[i])
    requires forall i :: 0 <= i < |s.done| && s.done[i].scan.gte.None? ==> s.done[i].scan.snapshot < m
    ensures exists i :: 0 <= i < |s.done| && s.done[i].scan.gte.Some? && Scans(s.done[i].scan, m)
  {
    assert FromEarlier(s, s.done[j].scan, j);
    var p :| 0 <= p < j && s.done[j].scan.gte.value == s.done[p].ranAt / 1000 - R.OVERLAP_S;
    if m <= s.done[p].scan.snapshot {
      FirstCover(s, p, m);
    } else {
      assert Timely(s.done[p]);
      assert Scans(s.done[j].scan, m);
    }
  }

  /**
   No gap, however runs overlap: a transaction newer than every unwindowed ok
   scan, and no newer than some ok scan, was in the window of an ok scan.
   */
  lemma Coverage(steps: seq<Step>, j: nat, m: int)
    requires j < |After(steps).done| && m <= After(steps).done[j].scan.snapshot
    requires forall i :: 0 <= i < |After(steps).done| ==> Timely(After(steps).done[i])
    requires forall i :: 0 <= i < |After(steps).done| && After(steps).done[i].scan.gte.None? ==>
               After(steps).done[i].scan.snapshot < m
    ensures exists i :: 0 <= i < |After(steps).done| && After(steps).done[i].scan.gte.Some?
                        && Scans(After(steps).done[i].scan, m)
  {
    AfterInv(steps);
    FirstCover(After(steps), j, m);
  }

  // ------------------------------------------------------- the batches themselves

  /** What a scan returned is its window of the list, or, unwindowed, part of it. */
  predicate BatchOfScan(scan: Scan) {
    scan.gte.Some? && scan.batch.Some? ==> scan.batch.value == V.Window(scan.listed, scan.gte)
  }

  predicate Batches(s: State) {
    && (forall id :: id in s.open ==> BatchOfScan(s.open[id]))
    && (forall i :: 0 <= i < |s.done| ==> BatchOfScan(s.done[i].scan) && s.done[i].scan.batch.Some?)
  }

  lemma {:induction false} AfterBatches(steps: seq<Step>)
    ensures Batches(After(steps))
    decreases |steps|
  {
    hide BatchOfScan, Opened;
    if steps != [] {
      var n := |steps| - 1;
      AfterBatches(steps[..n]);
      if steps[n].Begin? {
        OpenedBatch(After(steps[..n]).runs, steps[n].snapshot, steps[n].listed);
      }
    }
  }

  lemma OpenedBatch(runs: seq<R.RunRow>, snapshot: int, listed: seq<M.BalanceTxn>)
    ensures BatchOfScan(Opened(runs, snapshot, listed))
  {
    hide V.Window, R.NewestOk;
  }

  /** The provider lists the transaction, created at `m` ms, in every list it gives from then on. */
  predicate ListedFrom(s: State, x: M.BalanceTxn, m: int) {
    && x.created == m / 1000
    && forall i :: 0 <= i < |s.done| && m <= s.done[i].scan.snapshot ==> x in s.done[i].scan.listed
  }

  /** The transaction is in what some ok run reconciled. */
  predicate Reconciled(s: State, x: M.BalanceTxn) {
    exists i :: 0 <= i < |s.done| && s.done[i].scan.batch.Some? && x in s.done[i].scan.batch.value
  }

  lemma ScannedIsReconciled(steps: seq<Step>, i: nat, x: M.BalanceTxn, m: int)
    requires i < |After(steps).done| && ListedFrom(After(steps), x, m)
    requires After(steps).done[i].scan.gte.Some? && Scans(After(steps).done[i].scan, m)
    ensures Reconciled(After(steps), x)
  {
    hide After;
    AfterBatches(steps);
    var scan := After(steps).done[i].scan;
    assert BatchOfScan(scan);
    V.WindowExact(scan.listed, scan.gte, x);
  }

  /**
   However runs overlap, fail or throw: every provider transaction newer than the
   unwindowed ok scans, and no newer than some ok scan, was in the batch an ok run
   reconciled.
   */
  lemma EveryTransactionReconciled(steps: seq<Step>, j: nat, x: M.BalanceTxn, m: int)
    requires j < |After(steps).done| && m <= After(steps).done[j].scan.snapshot
    requires ListedFrom(After(steps), x, m)
    requires forall i :: 0 <= i < |After(steps).done| ==> Timely(After(steps).done[i])
    requires forall i :: 0 <= i < |After(steps).done| && After(steps).done[i].scan.gte.None? ==>
               After(steps).done[i].scan.snapshot < m
    ensures Reconciled(After(steps), x)
  {
    hide After, Timely, Scans;
    Coverage(steps, j, m);
    var i :| 0 <= i < |After(steps).done| && After(steps).done[i].scan.gte.Some? && Scans(After(steps).done[i].scan, m);
    ScannedIsReconciled(steps, i, x, m);
  }

  // ------------------------------------------------------------ serial runs

  /** No run starts while another is in progress. */
  predicate Serial(steps: seq<Step>) {
    forall n :: 0 <= n < |steps| && steps[n].Begin? ==> After(steps[..n]).open == map[]
  }

  ghost predicate OnlyFirstUnwindowed(s: State) {
    && (forall i :: 0 < i < |s.done| ==> s.done[i].scan.gte.Some?)
    && (s.done != [] ==> exists i :: 0 <= i < |s.runs| && s.runs[i].OkRun?)
    && (forall i, k :: i in s.open && k in s.open ==> i == k)
    && (forall id :: id in s.open && s.open[id].gte.None? ==> s.done == [])
  }

  lemma {:induction false} SerialWindows(steps: seq<Step>)
    requires Serial(steps)
    ensures OnlyFirstUnwindowed(After(steps))
    decreases |steps|
  {
    if steps != [] {
      var n := |steps| - 1;
      assert forall k :: 0 <= k < n ==> steps[..n][..k] == steps[..k] && steps[..n][k] == steps[k];
      SerialWindows(steps[..n]);
      var s, s' := After(steps[..n]), After(steps);
      R.NewestOkIsNewest(s.runs);
      if steps[n].Succeed? && s'.done != s.done {
        assert s'.runs[|s.runs|].OkRun?;
      } else if s'.done != [] {
        var i :| 0 <= i < |s.runs| && s.runs[i].OkRun?;
        assert s'.runs[i].OkRun?;
      }
    }
  }

  /** Without overlap the claim starts at the first ok run's snapshot. */
  lemma {:induction false} SerialCoverage(steps: seq<Step>, j: nat, m: int)
    requires Serial(steps) && j < |After(steps).done|
    requires After(steps).done[0].scan.snapshot < m <= After(steps).done[j].scan.snapshot
    requires forall i :: 0 <= i < |After(steps).done| ==> Timely(After(steps).done[i])
    ensures exists i :: 0 <= i < |After(steps).done| && After(steps).done[i].scan.gte.Some?
                        && Scans(After(steps).done[i].scan, m)
  {
    SerialWindows(steps);
    Coverage(steps, j, m);
  }

  /** And of the transactions: everything the provider listed since the first ok run was reconciled. */
  lemma SerialTransactionsReconciled(steps: seq<Step>, j: nat, x: M.BalanceTxn, m: int)
    requires Serial(steps) && j < |After(steps).done| && ListedFrom(After(steps), x, m)
    requires After(steps).done[0].scan.snapshot < m <= After(steps).done[j].scan.snapshot
    requires forall i :: 0 <= i < |After(steps).done| ==> Timely(After(steps).done[i])
    ensures Reconciled(After(steps), x)
  {
    hide After, Timely, Scans, Serial;
    SerialCoverage(steps, j, m);
    var i :| 0 <= i < |After(steps).done| && After(steps).done[i].scan.gte.Some? && Scans(After(steps).done[i].scan, m);
    ScannedIsReconciled(steps, i, x, m);
  }
}
