/**
 The bound on overlapping password attempts is reached: with `k` attempts in flight,
 nine and `k` comparisons in every lock period. So ten is sure only one at a time.
 */
module LockoutReached {
  import opened Prelude
  import opened Accounts
  import opened Lockout

  // ------------------------------------------------------- staying within `k`

  /** One more step keeps the number in flight if the state it leads to does. */
  lemma OneMore(s: State, steps: seq<Step>, step: Step, k: nat)
    requires AtMost(s, steps, k) && |Next(After(s, steps), step).flight| <= k
    ensures AtMost(s, steps + [step], k) && After(s, steps + [step]) == Next(After(s, steps), step)
  {
    hide Next;
    var all := steps + [step];
    assert all[..|steps|] == steps;
    forall n | 0 <= n <= |all| ensures |After(s, all[..n]).flight| <= k {
      if n <= |steps| {
        assert all[..n] == steps[..n];
      } else {
        assert all[..n] == all;
      }
    }
  }

  lemma NoneYet(s: State, k: nat)
    requires |s.flight| <= k
    ensures AtMost(s, [], k)
  {
  }

  lemma BothWithin(s: State, a: seq<Step>, b: seq<Step>, k: nat)
    requires AtMost(s, a, k) && AtMost(After(s, a), b, k)
    ensures AtMost(s, a + b, k) && After(s, a + b) == After(After(s, a), b)
  {
    hide Next, Fold;
    var all := a + b;
    FoldSplit(Next, s, a, b);
    forall n | 0 <= n <= |all| ensures |After(s, all[..n]).flight| <= k {
      if n <= |a| {
        assert all[..n] == a[..n];
      } else {
        assert all[..n] == a + b[..n - |a|];
        FoldSplit(Next, s, a, b[..n - |a|]);
      }
    }
  }

  /** The steps lead from one state to another with at most `k` in flight. */
  predicate Leads(s: State, steps: seq<Step>, k: nat, t: State) {
    AtMost(s, steps, k) && After(s, steps) == t
  }

  // --------------------------------------------------------- the four phases

  function Reads(k: nat): seq<Step> {
    if k == 0 then [] else Reads(k - 1) + [Read(k - 1)]
  }

  function Compares(k: nat): seq<Step> {
    if k == 0 then [] else Compares(k - 1) + [Compare(k - 1)]
  }

  function Counts(k: nat): seq<Step> {
    if k == 0 then [] else Counts(k - 1) + [Count(k - 1)]
  }

  function Locks(k: nat): seq<Step> {
    if k == 0 then [] else Locks(k - 1) + [Lock(k - 1)]
  }

  /** The numbers from `from` up to `k`. */
  function Ids(from: nat, k: nat): (ids: set<nat>)
    requires from <= k
    ensures forall id: nat :: id in ids <==> from <= id < k
    ensures |ids| == k - from
    decreases k
  {
    if k == from then {} else Ids(from, k - 1) + {k - 1}
  }

  /** Attempts `0` to `k`, the first `done` of them already past `before`, at `after`. */
  function Flying(done: nat, k: nat, before: Pc, after: Pc): map<nat, Pc>
    requires done <= k
  {
    map id | id in Ids(0, k) :: if id < done then after else before
  }

  lemma FlyingSize(done: nat, k: nat, before: Pc, after: Pc)
    requires done <= k
    ensures |Flying(done, k, before, after)| == k
  {
    assert Flying(done, k, before, after).Keys == Ids(0, k);
    assert |Flying(done, k, before, after).Keys| == |Flying(done, k, before, after)|;
  }

  lemma FlyingNext(done: nat, k: nat, before: Pc, after: Pc)
    requires done < k
    ensures Flying(done, k, before, after)[done := after] == Flying(done + 1, k, before, after)
    ensures done in Flying(done, k, before, after) && Flying(done, k, before, after)[done] == before
  {
  }

  lemma FlyingEnds(k: nat, before: Pc, after: Pc, next: Pc)
    ensures Flying(k, k, before, after) == Flying(0, k, after, next)
  {
  }

  lemma OneReads(s: State, j: nat)
    requires s.flight == Flying(0, j, Passed, Compared) && !Closed(s)
    ensures Next(s, Read(j)) == s.(flight := Flying(0, j + 1, Passed, Compared))
  {
    assert Flying(0, j, Passed, Compared)[j := Passed] == Flying(0, j + 1, Passed, Compared);
  }

  lemma {:induction false} AllRead(s: State, j: nat, k: nat)
    requires s.flight == map[] && !Closed(s) && j <= k
    ensures Leads(s, Reads(j), k, s.(flight := Flying(0, j, Passed, Compared)))
    decreases j
  {
    hide Fold, AtMost, Next, Flying;
    FlyingSize(0, j, Passed, Compared);
    if j == 0 {
      NoneYet(s, k);
      NobodyFlies();
      FoldNone(s);
    } else {
      AllRead(s, j - 1, k);
      OneReads(After(s, Reads(j - 1)), j - 1);
      OneMore(s, Reads(j - 1), Read(j - 1), k);
    }
  }

  lemma NobodyFlies()
    ensures Flying(0, 0, Passed, Compared) == map[]
  {
  }

  lemma FoldNone(s: State)
    ensures After(s, []) == s
  {
  }

  lemma OneCompares(s: State, j: nat, k: nat)
    requires j < k && s.flight == Flying(j, k, Passed, Compared)
    ensures Next(s, Compare(j)) == s.(flight := Flying(j + 1, k, Passed, Compared), compared := s.compared + 1)
  {
    FlyingNext(j, k, Passed, Compared);
  }

  lemma {:induction false} AllCompare(s: State, j: nat, k: nat)
    requires j <= k && s.flight == Flying(0, k, Passed, Compared)
    ensures Leads(s, Compares(j), k, s.(flight := Flying(j, k, Passed, Compared), compared := s.compared + j))
    decreases j
  {
    hide Fold, AtMost, Next, Flying;
    FlyingSize(j, k, Passed, Compared);
    if j == 0 {
      NoneYet(s, k);
      FoldNone(s);
    } else {
      AllCompare(s, j - 1, k);
      OneCompares(After(s, Compares(j - 1)), j - 1, k);
      OneMore(s, Compares(j - 1), Compare(j - 1), k);
    }
  }

  lemma OneCounts(s: State, j: nat, k: nat)
    requires j < k && s.flight == Flying(j, k, Compared, Locking) && s.count >= MAX_FAILED_LOGINS - 1
    ensures Next(s, Count(j)) == s.(flight := Flying(j + 1, k, Compared, Locking), count := s.count + 1)
  {
    FlyingNext(j, k, Compared, Locking);
  }

  lemma {:induction false} AllCount(s: State, j: nat, k: nat)
    requires j <= k && s.flight == Flying(0, k, Compared, Locking) && s.count == MAX_FAILED_LOGINS - 1
    ensures Leads(s, Counts(j), k, s.(flight := Flying(j, k, Compared, Locking), count := s.count + j))
    decreases j
  {
    hide Fold, AtMost, Next, Flying;
    FlyingSize(j, k, Compared, Locking);
    if j == 0 {
      NoneYet(s, k);
      FoldNone(s);
    } else {
      AllCount(s, j - 1, k);
      OneCounts(After(s, Counts(j - 1)), j - 1, k);
      OneMore(s, Counts(j - 1), Count(j - 1), k);
    }
  }

  /** The attempts from `from` on, all about to lock. */
  function Waiting(from: nat, k: nat): map<nat, Pc>
    requires from <= k
  {
    map id | id in Ids(from, k) :: Locking
  }

  lemma WaitingSize(from: nat, k: nat)
    requires from <= k
    ensures |Waiting(from, k)| == k - from
    ensures from < k ==> Waiting(from, k) - {from} == Waiting(from + 1, k)
  {
    assert Waiting(from, k).Keys == Ids(from, k);
    assert |Waiting(from, k).Keys| == |Waiting(from, k)|;
  }

  lemma {:induction false} AllLock(s: State, j: nat, k: nat)
    requires 1 <= j <= k && s.flight == Waiting(0, k)
    ensures Leads(s, Locks(j), k, s.(flight := Waiting(j, k), count := 0, lockedUntil := Some(s.now + LOCK)))
    decreases j
  {
    hide Fold, AtMost, Next, Waiting;
    WaitingSize(0, k);
    if j == 1 {
      NoneYet(s, k);
      FoldNone(s);
      assert Locks(0) == [] && Locks(1) == [] + [Lock(0)];
      WaitingSize(1, k);
      OneLocks(s, 0, k);
      OneMore(s, [], Lock(0), k);
    } else {
      AllLock(s, j - 1, k);
      WaitingSize(j, k);
      OneLocks(After(s, Locks(j - 1)), j - 1, k);
      OneMore(s, Locks(j - 1), Lock(j - 1), k);
    }
  }

  lemma OneLocks(s: State, j: nat, k: nat)
    requires j < k && s.flight == Waiting(j, k)
    ensures Next(s, Lock(j)) == s.(flight := Waiting(j + 1, k), count := 0, lockedUntil := Some(s.now + LOCK))
  {
    WaitingSize(j, k);
  }

  /** `k` attempts together: all read, all compare, all count, all lock. */
  function Volley(k: nat): seq<Step> {
    Reads(k) + (Compares(k) + (Counts(k) + Locks(k)))
  }

  /** With the count at nine, a volley of any size is compared whole, and locks. */
  lemma VolleyIsCompared(s: State, k: nat)
    requires s.flight == map[] && !Closed(s) && s.count == MAX_FAILED_LOGINS - 1 && k >= 1
    ensures Leads(s, Volley(k), k,
                  s.(count := 0, lockedUntil := Some(s.now + LOCK), compared := s.compared + k))
  {
    hide Fold, AtMost, Next, Reads, Compares, Counts, Locks;
    AllRead(s, k, k);
    var s1 := s.(flight := Flying(0, k, Passed, Compared));
    AllCompare(s1, k, k);
    var s2 := s1.(flight := Flying(k, k, Passed, Compared), compared := s.compared + k);
    FlyingEnds(k, Passed, Compared, Locking);
    AllCount(s2, k, k);
    var s3 := s2.(flight := Flying(k, k, Compared, Locking), count := s.count + k);
    assert Flying(k, k, Compared, Locking) == Waiting(0, k);
    AllLock(s3, k, k);
    assert Waiting(k, k) == map[];
    BothWithin(s2, Counts(k), Locks(k), k);
    BothWithin(s1, Compares(k), Counts(k) + Locks(k), k);
    BothWithin(s, Reads(k), Compares(k) + (Counts(k) + Locks(k)), k);
  }

  // --------------------------------------------------------- a whole period

  /** Attempts one after the other. */
  function Singles(n: nat): seq<Step> {
    if n == 0 then [] else Singles(n - 1) + [Read(0)] + [Compare(0)] + [Count(0)]
  }

  lemma {:induction false} SinglesCount(s: State, n: nat, k: nat)
    requires s.flight == map[] && !Closed(s) && s.count == 0 && n < MAX_FAILED_LOGINS && k >= 1
    ensures Leads(s, Singles(n), k, s.(count := n, compared := s.compared + n))
    decreases n
  {
    hide Fold, AtMost;
    if n == 0 {
      NoneYet(s, k);
      FoldNone(s);
    } else {
      SinglesCount(s, n - 1, k);
      var t := s.(count := n - 1, compared := s.compared + n - 1);
      assert map[0 := Passed][0 := Compared] == map[0 := Compared] && map[0 := Compared] - {0} == map[];
      assert |map[0 := Passed]| == 1 && |map[0 := Compared]| == 1;
      OneMore(s, Singles(n - 1), Read(0), k);
      OneMore(s, Singles(n - 1) + [Read(0)], Compare(0), k);
      OneMore(s, Singles(n - 1) + [Read(0)] + [Compare(0)], Count(0), k);
    }
  }

  /** Nine single attempts, then a volley. */
  function Attack(k: nat): seq<Step> {
    Singles(MAX_FAILED_LOGINS - 1) + Volley(k)
  }

  lemma AttackCompares(s: State, k: nat)
    requires s.flight == map[] && !Closed(s) && s.count == 0 && k >= 1
    ensures Leads(s, Attack(k), k,
                  s.(lockedUntil := Some(s.now + LOCK), compared := s.compared + (MAX_FAILED_LOGINS - 1 + k)))
  {
    hide Fold, AtMost, Next, Singles, Volley;
    SinglesCount(s, MAX_FAILED_LOGINS - 1, k);
    var t := s.(count := MAX_FAILED_LOGINS - 1, compared := s.compared + (MAX_FAILED_LOGINS - 1));
    VolleyIsCompared(t, k);
    BothWithin(s, Singles(MAX_FAILED_LOGINS - 1), Volley(k), k);
  }

  /** An attack at the start of each of `n` lock periods, the first at `now`. */
  function Siege(now: int, k: nat, n: nat): seq<Step>
    requires n >= 1
  {
    if n == 1 then Attack(k) else Siege(now, k, n - 1) + [Wait(now + (n - 1) * LOCK)] + Attack(k)
  }

  /**
   The bound is exact: for any number of attempts in flight and of lock periods begun,
   a schedule gets nine and that many comparisons in every one of them.
   */
  lemma {:induction false} BoundIsReached(s: State, k: nat, n: nat)
    requires s.flight == map[] && !Closed(s) && s.count == 0 && k >= 1 && n >= 1
    ensures AtMost(s, Siege(s.now, k, n), k)
    ensures var t := After(s, Siege(s.now, k, n));
            && t == State(0, Some(s.now + n * LOCK), map[], s.now + (n - 1) * LOCK, t.compared)
            && (t.now - s.now) / LOCK + 1 == n
            && t.compared - s.compared == (MAX_FAILED_LOGINS - 1 + k) * n
    decreases n
  {
    hide Fold, AtMost, Attack;
    if n == 1 {
      AttackCompares(s, k);
    } else {
      BoundIsReached(s, k, n - 1);
      var before := Siege(s.now, k, n - 1);
      var t := After(s, before);
      var u := t.(now := s.now + (n - 1) * LOCK);
      assert Next(t, Wait(s.now + (n - 1) * LOCK)) == u;
      OneMore(s, before, Wait(s.now + (n - 1) * LOCK), k);
      AttackCompares(u, k);
      BothWithin(s, before + [Wait(s.now + (n - 1) * LOCK)], Attack(k), k);
      Periods(n - 1, k);
    }
  }

  lemma Periods(n: nat, k: nat)
    ensures (n * LOCK) / LOCK == n
    ensures (MAX_FAILED_LOGINS - 1 + k) * n + (MAX_FAILED_LOGINS - 1 + k) == (MAX_FAILED_LOGINS - 1 + k) * (n + 1)
  {
  }

  /** Nothing in flight, a legal count, and no lock longer than its period. */
  predicate Quiet(s: State) {
    && s.flight == map[] && 0 <= s.count < MAX_FAILED_LOGINS
    && (s.lockedUntil.Some? ==> s.lockedUntil.value <= s.now + LOCK)
  }

  predicate TenPerPeriod(s: State, steps: seq<Step>) {
    After(s, steps).compared - s.compared <= MAX_FAILED_LOGINS * ((After(s, steps).now - s.now) / LOCK + 1)
  }

  /** Every schedule keeps ten comparisons per lock period begun if and only if no two attempts are in flight together. */
  lemma TenIffOneAtATime(k: nat)
    ensures (forall s, steps :: Quiet(s) && AtMost(s, steps, k) ==> TenPerPeriod(s, steps)) <==> k <= 1
  {
    hide Fold, AtMost, Next, Attack;
    if k <= 1 {
      forall s, steps | Quiet(s) && AtMost(s, steps, k) ensures TenPerPeriod(s, steps) {
        OverlappingRateBound(s, steps, k);
        RunsForward(s, steps, k);
        Fewer(k, (After(s, steps).now - s.now) / LOCK + 1);
      }
    } else {
      var s := State(0, None, map[], 0, 0);
      AttackCompares(s, k);
      assert !TenPerPeriod(s, Attack(k));
    }
  }

  lemma Fewer(k: nat, n: int)
    requires k <= 1 && n >= 0
    ensures (MAX_FAILED_LOGINS - 1 + k) * n <= MAX_FAILED_LOGINS * n
  {
  }

  lemma {:induction false} RunsForward(s: State, steps: seq<Step>, k: nat)
    ensures s.now <= After(s, steps).now
    decreases |steps|
  {
    hide Next;
    if steps != [] {
      RunsForward(s, steps[..|steps| - 1], k);
      ClockRuns(After(s, steps[..|steps| - 1]), steps[|steps| - 1]);
    }
  }
}
