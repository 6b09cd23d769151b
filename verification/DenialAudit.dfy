/** The audit of authorization denials: per-user windowed counters in a bounded map. Times are in ms. */
module DenialAudit {
  import opened Prelude

  const DENIALS_AUDITED := 10
  const COUNTER_CEILING := 10_000
  const WINDOW := 60_000

  datatype Window = Window(start: int, count: int)

  datatype Denial = Denial(user: string, now: int)

  /** An audit row; `suppressed` marks the one that summarizes the flood. */
  datatype AuditRow = AuditRow(user: string, at: int, suppressed: bool)

  type Counters = map<string, Window>

  predicate Expired(w: Option<Window>, now: int) {
    w.None? || now - w.value.start >= WINDOW
  }

  function WindowOf(c: Counters, user: string): Option<Window> {
    if user in c then Some(c[user]) else None
  }

  /** The map is full when a new window opens, so it is emptied first. */
  predicate Clears(c: Counters, d: Denial) {
    Expired(WindowOf(c, d.user), d.now) && |c| >= COUNTER_CEILING
  }

  function OnDenial(c: Counters, d: Denial): (Counters, Option<AuditRow>) {
    var w := WindowOf(c, d.user);
    if Expired(w, d.now) then
      ((if |c| >= COUNTER_CEILING then map[] else c)[d.user := Window(d.now, 1)],
       Some(AuditRow(d.user, d.now, false)))
    else
      var count := w.value.count + 1;
      (c[d.user := w.value.(count := count)],
       if count > DENIALS_AUDITED + 1 then None else Some(AuditRow(d.user, d.now, count == DENIALS_AUDITED + 1)))
  }

  /** The user's minute is still running. */
  predicate InMinute(c: Counters, d: Denial) {
    d.user in c && d.now < c[d.user].start + 60_000
  }

  /**
   What one denial writes and counts, from the map alone: the first of a minute and the
   ten after it are written, the last of these flagged; a full map is emptied before a
   new minute starts.
   */
  lemma DenialWrites(c: Counters, d: Denial)
    ensures var (c', row) := OnDenial(c, d);
            && (row.None? <==> InMinute(c, d) && c[d.user].count >= 11)
            && (row.Some? ==> row.value.user == d.user && row.value.at == d.now
                              && (row.value.suppressed <==> InMinute(c, d) && c[d.user].count == 10))
            && d.user in c'
            && c'[d.user] == (if InMinute(c, d) then Window(c[d.user].start, c[d.user].count + 1) else Window(d.now, 1))
            && (forall u :: u in c' && u != d.user ==> u in c && c'[u] == c[u])
            && (forall u :: u in c && u != d.user ==> (u in c' <==> InMinute(c, d) || |c| < 10_000))
  {
  }

  /** The rows a trace of denials writes. */
  function Rows(c: Counters, trace: seq<Denial>): seq<AuditRow>
    decreases |trace|
  {
    if trace == [] then
      []
    else
      var (c', row) := OnDenial(c, trace[0]);
      (if row.Some? then [row.value] else []) + Rows(c', trace[1..])
  }

  function FinalCounters(c: Counters, trace: seq<Denial>): Counters
    decreases |trace|
  {
    if trace == [] then c else FinalCounters(OnDenial(c, trace[0]).0, trace[1..])
  }

  /** How often the map is emptied along the trace. */
  function Clearings(c: Counters, trace: seq<Denial>): nat
    decreases |trace|
  {
    if trace == [] then
      0
    else
      (if Clears(c, trace[0]) then 1 else 0) + Clearings(OnDenial(c, trace[0]).0, trace[1..])
  }

  // ------------------------------------------------------------- the ceiling

  lemma SizeAfterUpdate(c: Counters, user: string, w: Window)
    ensures |c[user := w]| == if user in c then |c| else |c| + 1
  {
  }

  /** The map never holds more counters than the ceiling. */
  lemma {:induction false} CountersBounded(c: Counters, trace: seq<Denial>)
    requires |c| <= COUNTER_CEILING
    ensures |FinalCounters(c, trace)| <= COUNTER_CEILING
    decreases |trace|
  {
    if trace != [] {
      var c' := OnDenial(c, trace[0]).0;
      SizeAfterUpdate(c, trace[0].user, c'[trace[0].user]);
      SizeAfterUpdate(map[], trace[0].user, c'[trace[0].user]);
      CountersBounded(c', trace[1..]);
    }
  }

  // ------------------------------------------------------------ one user alone

  function ForUser(trace: seq<Denial>, user: string): seq<Denial> {
    if trace == [] then [] else (if trace[0].user == user then [trace[0]] else []) + ForUser(trace[1..], user)
  }

  function RowsOf(rows: seq<AuditRow>, user: string): seq<AuditRow> {
    if rows == [] then [] else (if rows[0].user == user then [rows[0]] else []) + RowsOf(rows[1..], user)
  }

  /** A counter for a single user. */
  function Solo(w: Option<Window>, user: string, now: int): (Window, Option<AuditRow>) {
    if Expired(w, now) then
      (Window(now, 1), Some(AuditRow(user, now, false)))
    else
      var count := w.value.count + 1;
      (w.value.(count := count),
       if count > DENIALS_AUDITED + 1 then None else Some(AuditRow(user, now, count == DENIALS_AUDITED + 1)))
  }

  function SoloRows(w: Option<Window>, user: string, trace: seq<Denial>): seq<AuditRow>
    decreases |trace|
  {
    if trace == [] then
      []
    else
      var (w', row) := Solo(w, user, trace[0].now);
      (if row.Some? then [row.value] else []) + SoloRows(Some(w'), user, trace[1..])
  }

  lemma {:induction false} RowsOfSplit(a: seq<AuditRow>, b: seq<AuditRow>, user: string)
    ensures RowsOf(a + b, user) == RowsOf(a, user) + RowsOf(b, user)
    decreases |a|
  {
    if a == [] {
      assert a + b == b;
    } else {
      RowsOfSplit(a[1..], b, user);
      assert (a + b)[1..] == a[1..] + b && (a + b)[0] == a[0];
      var head := if a[0].user == user then [a[0]] else [];
      assert RowsOf(a + b, user) == head + RowsOf((a + b)[1..], user);
      assert head + (RowsOf(a[1..], user) + RowsOf(b, user)) == (head + RowsOf(a[1..], user)) + RowsOf(b, user);
    }
  }

  lemma RowsOfOne(row: AuditRow, user: string)
    ensures RowsOf([row], user) == if row.user == user then [row] else []
  {
  }

  /** Where the map is never emptied, a user's rows are those of a counter that sees that user alone. */
  lemma {:induction false} RowsProject(c: Counters, trace: seq<Denial>, user: string)
    requires Clearings(c, trace) == 0
    ensures RowsOf(Rows(c, trace), user) == SoloRows(WindowOf(c, user), user, ForUser(trace, user))
    decreases |trace|
  {
    hide OnDenial, Solo, RowsOf, Clears;
    if trace == [] {
      NoRowsOf(user);
    } else {
      var d := trace[0];
      var (c', row) := OnDenial(c, d);
      var mine := ForUser(trace[1..], user);
      RowsProject(c', trace[1..], user);
      var head := if row.Some? then [row.value] else [];
      RowsOfSplit(head, Rows(c', trace[1..]), user);
      assert Rows(c, trace) == head + Rows(c', trace[1..]);
      StepProjects(c, d, user);
      if d.user == user {
        assert ForUser(trace, user) == [d] + mine;
        assert ([d] + mine)[1..] == mine;
        assert SoloRows(WindowOf(c, user), user, [d] + mine) == head + SoloRows(WindowOf(c', user), user, mine);
      } else {
        assert ForUser(trace, user) == mine;
      }
    }
  }

  lemma NoRowsOf(user: string)
    ensures RowsOf([], user) == []
  {
  }

  /** A denial that does not empty the map moves its own user's counter only, as a counter of that user alone would. */
  lemma StepProjects(c: Counters, d: Denial, user: string)
    requires !Clears(c, d)
    ensures var (c', row) := OnDenial(c, d);
            var head := if row.Some? then [row.value] else [];
            if d.user == user
            then user in c' && Solo(WindowOf(c, user), user, d.now) == (c'[user], row)
                 && WindowOf(c', user) == Some(c'[user])
                 && RowsOf(head, user) == head
            else WindowOf(c', user) == WindowOf(c, user) && RowsOf(head, user) == []
  {
    var row := OnDenial(c, d).1;
    if row.Some? {
      RowsOfOne(row.value, user);
    }
  }

  /** Fewer distinct denied users than the ceiling is enough for the map never to be emptied. */
  lemma {:induction false} FewUsersNeverClear(c: Counters, trace: seq<Denial>, users: set<string>)
    requires |users| < COUNTER_CEILING && c.Keys <= users
    requires forall i :: 0 <= i < |trace| ==> trace[i].user in users
    ensures Clearings(c, trace) == 0
    decreases |trace|
  {
    if trace != [] {
      var c' := OnDenial(c, trace[0]).0;
      assert users == c.Keys + (users - c.Keys) && |c.Keys| == |c|;
      assert c'.Keys <= users;
      assert forall i :: 0 <= i < |trace[1..]| ==> trace[1..][i] == trace[i + 1];
      FewUsersNeverClear(c', trace[1..], users);
    }
  }

  // ------------------------------------------------------------- one window

  /** How many of the next `n` denials in the window are still written. */
  function RowsLeft(w: Window, n: nat): nat {
    if w.count > DENIALS_AUDITED then 0
    else if n <= DENIALS_AUDITED + 1 - w.count then n
    else DENIALS_AUDITED + 1 - w.count
  }

  /** The rows one window writes for denials at the given times: the first eleven, the eleventh flagged. */
  lemma {:induction false} WindowRows(w: Window, user: string, trace: seq<Denial>)
    requires w.count >= 1 && forall i :: 0 <= i < |trace| ==> trace[i].now - w.start < WINDOW
    ensures |SoloRows(Some(w), user, trace)| == RowsLeft(w, |trace|)
    ensures forall i :: 0 <= i < RowsLeft(w, |trace|) ==>
              SoloRows(Some(w), user, trace)[i] == AuditRow(user, trace[i].now, w.count + i == DENIALS_AUDITED)
    decreases |trace|
  {
    hide SoloRows;
    if trace == [] {
      NoSoloRows(w, user);
    } else {
      var w', rest := w.(count := w.count + 1), trace[1..];
      assert forall i :: 0 <= i < |rest| ==> rest[i] == trace[i + 1];
      WindowRows(w', user, rest);
      SoloStep(w, user, trace);
      if w.count <= DENIALS_AUDITED {
        var head, later := [AuditRow(user, trace[0].now, w.count == DENIALS_AUDITED)], SoloRows(Some(w'), user, rest);
        assert forall i :: 0 < i < 1 + |later| ==> (head + later)[i] == later[i - 1];
      }
    }
  }

  lemma NoSoloRows(w: Window, user: string)
    ensures SoloRows(Some(w), user, []) == []
  {
  }

  /** How a user's rows in a running window start. */
  lemma SoloStep(w: Window, user: string, trace: seq<Denial>)
    requires trace != [] && w.count >= 1 && trace[0].now - w.start < WINDOW
    ensures SoloRows(Some(w), user, trace)
         == (if w.count > DENIALS_AUDITED then [] else [AuditRow(user, trace[0].now, w.count == DENIALS_AUDITED)])
            + SoloRows(Some(w.(count := w.count + 1)), user, trace[1..])
  {
  }

  // ------------------------------------------------------------- over a span

  predicate Ordered(trace: seq<Denial>) {
    forall i, j :: 0 <= i < j < |trace| ==> trace[i].now <= trace[j].now
  }

  function RowCount(c: Counters, trace: seq<Denial>, user: string): nat {
    |RowsOf(Rows(c, trace), user)|
  }

  /** The rows a user can still get until `end`, if the map is not emptied. */
  function Budget(w: Option<Window>, now: int, end: int): int {
    var opens := if Expired(w, now) then now else w.value.start + WINDOW;
    (if Expired(w, now) || w.value.count > DENIALS_AUDITED then 0 else DENIALS_AUDITED + 1 - w.value.count)
    + if end < opens then 0 else (DENIALS_AUDITED + 1) * ((end - opens) / WINDOW + 1)
  }

  predicate WindowsValid(c: Counters, now: int) {
    forall u :: u in c ==> c[u].count >= 1 && c[u].start <= now
  }

  lemma BudgetShrinks(w: Option<Window>, now: int, later: int, end: int)
    requires now <= later <= end && (w.Some? ==> w.value.count >= 1 && w.value.start <= now)
    ensures Budget(w, later, end) <= Budget(w, now, end)
  {
  }

  /** Losing the counter costs at most one more window of rows. */
  lemma ForgettingCosts(w: Option<Window>, now: int, end: int)
    requires now <= end && (w.Some? ==> w.value.count >= 1 && w.value.start <= now)
    ensures Budget(None, now, end) <= Budget(w, now, end) + DENIALS_AUDITED + 1
  {
  }

  lemma DenialSpends(w: Option<Window>, user: string, now: int, end: int)
    requires now <= end && (w.Some? ==> w.value.count >= 1 && w.value.start <= now)
    ensures (if Solo(w, user, now).1.Some? then 1 else 0) + Budget(Some(Solo(w, user, now).0), now, end)
         <= Budget(w, now, end)
  {
  }

  lemma BudgetNonNegative(w: Option<Window>, now: int, end: int)
    ensures Budget(w, now, end) >= 0
  {
  }

  lemma {:induction false} WithinBudget(c: Counters, trace: seq<Denial>, user: string, now: int, end: int)
    requires WindowsValid(c, now) && Ordered(trace)
    requires forall i :: 0 <= i < |trace| ==> now <= trace[i].now <= end
    ensures RowCount(c, trace, user)
         <= (if trace == [] then 0 else Budget(WindowOf(c, user), now, end))
            + (DENIALS_AUDITED + 1) * Clearings(c, trace)
    decreases |trace|
  {
    hide Budget, OnDenial, RowCount, Clears, WindowsValid;
    if trace == [] {
      NoRows(c, user);
    } else {
      var d, rest := trace[0], trace[1..];
      var c' := OnDenial(c, d).0;
      assert forall i :: 0 <= i < |rest| ==> rest[i] == trace[i + 1];
      WindowsStep(c, d, now);
      WithinBudget(c', rest, user, d.now, end);
      RowCountStep(c, trace, user);
      BudgetShrinks(WindowOf(c, user), now, d.now, end);
      BudgetNonNegative(WindowOf(c', user), d.now, end);
      StepWithinBudget(c, d, user, end);
    }
  }

  lemma NoRows(c: Counters, user: string)
    ensures RowCount(c, [], user) == 0
  {
  }

  lemma WindowsStep(c: Counters, d: Denial, now: int)
    requires WindowsValid(c, now) && now <= d.now
    ensures WindowsValid(c, d.now) && WindowsValid(OnDenial(c, d).0, d.now)
    ensures forall u :: WindowOf(c, u).Some? ==> WindowOf(c, u).value.count >= 1 && WindowOf(c, u).value.start <= now
  {
  }

  /** How a trace's row count splits at its first denial. */
  lemma RowCountStep(c: Counters, trace: seq<Denial>, user: string)
    requires trace != []
    ensures RowCount(c, trace, user)
         == (if trace[0].user == user && OnDenial(c, trace[0]).1.Some? then 1 else 0)
            + RowCount(OnDenial(c, trace[0]).0, trace[1..], user)
  {
    var (c', row) := OnDenial(c, trace[0]);
    var head := if row.Some? then [row.value] else [];
    RowsOfSplit(head, Rows(c', trace[1..]), user);
    assert Rows(c, trace) == head + Rows(c', trace[1..]);
    if row.Some? {
      RowsOfOne(row.value, user);
    }
  }

  /** One denial takes the row it writes out of the budget; emptying the map adds at most one window. */
  lemma StepWithinBudget(c: Counters, d: Denial, user: string, end: int)
    requires WindowsValid(c, d.now) && d.now <= end
    ensures (if d.user == user && OnDenial(c, d).1.Some? then 1 else 0)
            + Budget(WindowOf(OnDenial(c, d).0, user), d.now, end)
         <= Budget(WindowOf(c, user), d.now, end) + if Clears(c, d) then DENIALS_AUDITED + 1 else 0
  {
    hide Budget;
    if d.user == user {
      DenialSpends(WindowOf(c, user), user, d.now, end);
    } else if Clears(c, d) {
      ForgettingCosts(WindowOf(c, user), d.now, end);
    }
  }

  /**
   A user's rows over a span that starts with no running window of theirs: at most
   eleven per minute begun, and eleven more for each time the map was emptied.
   */
  lemma {:induction false} DenialRateBound(c: Counters, trace: seq<Denial>, user: string)
    requires trace != [] && Ordered(trace) && WindowsValid(c, trace[0].now)
    requires Expired(WindowOf(c, user), trace[0].now)
    ensures RowCount(c, trace, user)
         <= (DENIALS_AUDITED + 1) * ((trace[|trace| - 1].now - trace[0].now) / WINDOW + 1 + Clearings(c, trace))
  {
    hide RowCount, Clearings;
    var now, end := trace[0].now, trace[|trace| - 1].now;
    WithinBudget(c, trace, user, now, end);
  }

  /** Over any span at all: a window already running when it starts has ten rows left at most. */
  lemma {:induction false} DenialRateBoundAnywhere(c: Counters, trace: seq<Denial>, user: string)
    requires trace != [] && Ordered(trace) && WindowsValid(c, trace[0].now)
    ensures RowCount(c, trace, user)
         <= (DENIALS_AUDITED + 1) * ((trace[|trace| - 1].now - trace[0].now) / WINDOW + 1 + Clearings(c, trace))
            + DENIALS_AUDITED
  {
    hide RowCount, Clearings;
    var now, end := trace[0].now, trace[|trace| - 1].now;
    WithinBudget(c, trace, user, now, end);
    RunningBudget(WindowOf(c, user), now, end);
  }

  /** A running window leaves at most ten rows on top of the span's own. */
  lemma RunningBudget(w: Option<Window>, now: int, end: int)
    requires now <= end && (w.Some? ==> w.value.count >= 1 && w.value.start <= now)
    ensures Budget(w, now, end) <= (DENIALS_AUDITED + 1) * ((end - now) / WINDOW + 1) + DENIALS_AUDITED
  {
    if !Expired(w, now) && end >= w.value.start + WINDOW {
      assert (end - w.value.start - WINDOW) / WINDOW <= (end - now) / WINDOW;
    }
  }

  // -------------------------------------------------------------- the handle

  class Hook {
    var counters: Counters
    var rows: seq<AuditRow>

    constructor ()
      ensures counters == map[] && rows == []
    {
      counters, rows := map[], [];
    }

    /** Only an authenticated 403 counts. */
    method OnResponse(statusCode: int, auth: Option<string>, now: int)
      modifies this
      ensures statusCode != 403 || auth.None? ==> counters == old(counters) && rows == old(rows)
      ensures statusCode == 403 && auth.Some? ==>
                var (c, row) := OnDenial(old(counters), Denial(auth.value, now));
                counters == c && rows == old(rows) + if row.Some? then [row.value] else []
    {
      if statusCode != 403 || auth.None? {
        return;
      }
      var user := auth.value;
      var suppressedTrip := false;
      if user !in counters || now - counters[user].start >= WINDOW {
        if |counters| >= COUNTER_CEILING {
          counters := map[];
        }
        counters := counters[user := Window(now, 1)];
      } else {
        var window := counters[user].(count := counters[user].count + 1);
        counters := counters[user := window];
        if window.count > DENIALS_AUDITED + 1 {
          return;
        }
        suppressedTrip := window.count == DENIALS_AUDITED + 1;
      }
      rows := rows + [AuditRow(user, now, suppressedTrip)];
    }
  }
}
