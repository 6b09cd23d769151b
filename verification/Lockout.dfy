/**
 The lockout when attempts on one account overlap. Each attempt reads the lock,
 compares the password, counts the failure, and, if it counted the tenth or a later
 one, locks; the four are separate statements, mixed at will. An attempt that dies
 is one that is never continued. All passwords are wrong; times are in ms.
 */
module Lockout {
  import opened Prelude
  import opened Accounts

  /** Past the lock check, past the comparison, or about to lock. */
  datatype Pc = Passed | Compared | Locking

  /** The account's counter and lock, the attempts in flight, the clock, and how often the stored hash was compared. */
  datatype State = State(count: int, lockedUntil: Option<int>, flight: map<nat, Pc>, now: int, compared: nat)

  datatype Step = Read(id: nat) | Compare(id: nat) | Count(id: nat) | Lock(id: nat) | Wait(until: int)

  predicate Closed(s: State) {
    s.lockedUntil.Some? && s.lockedUntil.value > s.now
  }

  predicate At(s: State, id: nat, pc: Pc) {
    id in s.flight && s.flight[id] == pc
  }

  function Next(s: State, step: Step): State {
    match step
    case Read(id) =>
      if id in s.flight || Closed(s) then s else s.(flight := s.flight[id := Passed])
    case Compare(id) =>
      if !At(s, id, Passed) then s else s.(flight := s.flight[id := Compared], compared := s.compared + 1)
    case Count(id) =>
      if !At(s, id, Compared) then s
      else if s.count + 1 >= MAX_FAILED_LOGINS then s.(count := s.count + 1, flight := s.flight[id := Locking])
      else s.(count := s.count + 1, flight := s.flight - {id})
    case Lock(id) =>
      if !At(s, id, Locking) then s
      else s.(count := 0, lockedUntil := Some(s.now + LOCK), flight := s.flight - {id})
    case Wait(until) => if until < s.now then s else s.(now := until)
  }

  function After(s: State, steps: seq<Step>): State {
    Fold(Next, s, steps)
  }

  /** The attempts in flight that stand at `pc`. */
  function Standing(s: State, pc: Pc): set<nat> {
    set id | id in s.flight && s.flight[id] == pc
  }

  /** Moving one attempt changes only the two counts it leaves and enters. */
  lemma Moves(s: State, s': State, id: nat, pc: Pc)
    requires s'.flight == s.flight[id := pc] || s'.flight == s.flight - {id}
    ensures forall p :: |Standing(s', p)| == |Standing(s, p)|
              - (if At(s, id, p) then 1 else 0) + (if At(s', id, p) then 1 else 0)
  {
    hide Standing, At;
    forall p ensures |Standing(s', p)| == |Standing(s, p)| - (if At(s, id, p) then 1 else 0) + (if At(s', id, p) then 1 else 0) {
      Without(s, id, p);
      Without(s', id, p);
      SameBut(s, s', id, pc, p);
    }
  }

  lemma Without(s: State, id: nat, p: Pc)
    ensures |Standing(s, p) - {id}| == |Standing(s, p)| - if At(s, id, p) then 1 else 0
  {
    assert id in Standing(s, p) <==> At(s, id, p);
    if At(s, id, p) {
      assert Standing(s, p) == (Standing(s, p) - {id}) + {id};
    } else {
      assert Standing(s, p) - {id} == Standing(s, p);
    }
  }

  lemma SameBut(s: State, s': State, id: nat, pc: Pc, p: Pc)
    requires s'.flight == s.flight[id := pc] || s'.flight == s.flight - {id}
    ensures Standing(s', p) - {id} == Standing(s, p) - {id}
  {
  }

  lemma AllStand(s: State)
    ensures |s.flight| == |Standing(s, Passed)| + |Standing(s, Compared)| + |Standing(s, Locking)|
  {
    assert s.flight.Keys == Standing(s, Passed) + Standing(s, Compared) + Standing(s, Locking);
    assert |s.flight.Keys| == |s.flight|;
  }

  /** At most `k` attempts are ever in flight together. */
  predicate AtMost(s: State, steps: seq<Step>, k: nat) {
    forall n :: 0 <= n <= |steps| ==> |After(s, steps[..n]).flight| <= k
  }

  /** The count passes nine only with attempts about to lock; no lock lasts longer than its period. */
  predicate Inv(s: State) {
    && 0 <= s.count <= MAX_FAILED_LOGINS - 1 + |Standing(s, Locking)|
    && (s.lockedUntil.Some? ==> s.lockedUntil.value <= s.now + LOCK)
  }

  /** Comparisons one lock period can still take, when the account is open. */
  function Left(s: State, k: nat): int {
    MAX_FAILED_LOGINS - 1 + k - s.count - |Standing(s, Compared)|
  }

  /** The comparisons a number of lock periods can take. */
  function Full(k: nat, periods: int): int {
    (MAX_FAILED_LOGINS - 1 + k) * periods
  }

  lemma FullGrows(k: nat, a: int, b: int)
    requires a <= b
    ensures Full(k, a) <= Full(k, b) && Full(k, a + 1) == Full(k, a) + MAX_FAILED_LOGINS - 1 + k && Full(k, 0) == 0
  {
    assert (MAX_FAILED_LOGINS - 1 + k) * (b - a) >= 0;
  }

  /** The comparisons still possible until `end`, with at most `k` attempts in flight. */
  function Budget(s: State, k: nat, end: int): int {
    if !Closed(s) then Left(s, k) + Full(k, (end - s.now) / LOCK)
    else |Standing(s, Passed)|
         + if end < s.lockedUntil.value then 0
           else Full(k, (end - s.lockedUntil.value) / LOCK + 1)
  }

  /** What a step does to the attempts standing at each point. */
  lemma StepMoves(s: State, step: Step)
    requires !step.Wait?
    ensures forall p :: |Standing(Next(s, step), p)| == |Standing(s, p)|
              - (if At(s, step.id, p) then 1 else 0) + (if At(Next(s, step), step.id, p) then 1 else 0)
  {
    hide Standing;
    var s' := Next(s, step);
    if s'.flight != s.flight {
      Moves(s, s', step.id, if step.id in s'.flight then s'.flight[step.id] else Passed);
    } else {
      SameFlight(s, s');
    }
  }

  lemma SameFlight(s: State, s': State)
    requires s'.flight == s.flight
    ensures forall p :: Standing(s', p) == Standing(s, p)
  {
  }

  lemma StepInv(s: State, step: Step)
    requires Inv(s)
    ensures Inv(Next(s, step))
  {
    hide Standing;
    if step.Wait? {
      SameFlight(s, Next(s, step));
    } else {
      StepMoves(s, step);
    }
  }

  /** A comparison takes itself out of the budget; nothing else adds to it. */
  lemma StepSpends(s: State, step: Step, k: nat, end: int)
    requires Inv(s) && |s.flight| <= k && Next(s, step).now <= end
    ensures Next(s, step).compared - s.compared + Budget(Next(s, step), k, end) <= Budget(s, k, end)
  {
    hide Standing, Full;
    AllStand(s);
    if step.Wait? {
      SameFlight(s, Next(s, step));
      WaitSpends(s, step.until, k, end);
    } else {
      StepMoves(s, step);
      if step.Lock? && At(s, step.id, Locking) {
        LockSpends(s, step.id, k, end);
      }
    }
  }

  lemma WaitSpends(s: State, until: int, k: nat, end: int)
    requires Inv(s) && |s.flight| <= k && Next(s, Wait(until)).now <= end
    ensures Budget(Next(s, Wait(until)), k, end) <= Budget(s, k, end)
  {
    hide Standing, Full;
    var s' := Next(s, Wait(until));
    AllStand(s);
    SameFlight(s, s');
    if Closed(s) && !Closed(s') {
      FullGrows(k, (end - s'.now) / LOCK, (end - s.lockedUntil.value) / LOCK);
      FullGrows(k, (end - s.lockedUntil.value) / LOCK, (end - s.lockedUntil.value) / LOCK);
    } else if !Closed(s) {
      FullGrows(k, (end - s'.now) / LOCK, (end - s.now) / LOCK);
    }
  }

  lemma LockSpends(s: State, id: nat, k: nat, end: int)
    requires Inv(s) && |s.flight| <= k && s.now <= end && At(s, id, Locking)
    ensures Budget(Next(s, Lock(id)), k, end) <= Budget(s, k, end)
  {
    hide Standing, Full;
    var s' := Next(s, Lock(id));
    AllStand(s);
    StepMoves(s, Lock(id));
    if end >= s.now + LOCK {
      assert (end - s.now) / LOCK == (end - s.now - LOCK) / LOCK + 1;
      if Closed(s) {
        FullGrows(k, (end - s.now - LOCK) / LOCK + 1, (end - s.lockedUntil.value) / LOCK + 1);
      }
    } else {
      assert (end - s.now) / LOCK == 0;
      FullGrows(k, 0, 0);
      if Closed(s) && s.lockedUntil.value <= end {
        FullGrows(k, 0, (end - s.lockedUntil.value) / LOCK + 1);
      }
    }
  }

  lemma BudgetNonNegative(s: State, k: nat, end: int)
    requires Inv(s) && |s.flight| <= k && s.now <= end
    ensures Budget(s, k, end) >= 0
  {
    hide Standing, Full;
    AllStand(s);
    if !Closed(s) {
      FullGrows(k, 0, (end - s.now) / LOCK);
    } else if s.lockedUntil.value <= end {
      FullGrows(k, 0, (end - s.lockedUntil.value) / LOCK + 1);
    }
  }

  lemma {:induction false} RunSpends(s: State, steps: seq<Step>, k: nat, end: int)
    requires Inv(s) && AtMost(s, steps, k) && After(s, steps).now <= end
    ensures Inv(After(s, steps)) && s.now <= After(s, steps).now
    ensures After(s, steps).compared - s.compared + Budget(After(s, steps), k, end) <= Budget(s, k, end)
    decreases |steps|
  {
    hide Inv, Budget, Next;
    if steps != [] {
      var n := |steps| - 1;
      assert forall m :: 0 <= m <= n ==> steps[..n][..m] == steps[..m];
      ClockRuns(After(s, steps[..n]), steps[n]);
      RunSpends(s, steps[..n], k, end);
      StepInv(After(s, steps[..n]), steps[n]);
      StepSpends(After(s, steps[..n]), steps[n], k, end);
    }
  }

  lemma ClockRuns(s: State, step: Step)
    ensures s.now <= Next(s, step).now
  {
  }

  /**
   However wrong attempts on an account overlap, with at most `k` in flight together:
   per lock period begun, the stored hash is compared at most nine times and once for
   each attempt that can be in flight. One at a time this is the serial bound of ten.
   */
  lemma OverlappingRateBound(s: State, steps: seq<Step>, k: nat)
    requires s.flight == map[] && 0 <= s.count < MAX_FAILED_LOGINS
    requires s.lockedUntil.Some? ==> s.lockedUntil.value <= s.now + LOCK
    requires AtMost(s, steps, k)
    ensures After(s, steps).compared - s.compared
         <= (MAX_FAILED_LOGINS - 1 + k) * ((After(s, steps).now - s.now) / LOCK + 1)
  {
    hide Next, Fold, AtMost;
    var t := After(s, steps);
    NobodyStands(s);
    InFlight(s, steps, k);
    RunSpends(s, steps, k, t.now);
    BudgetNonNegative(t, k, t.now);
    StartBudget(s, k, t.now);
  }

  lemma InFlight(s: State, steps: seq<Step>, k: nat)
    requires AtMost(s, steps, k)
    ensures |After(s, steps).flight| <= k
  {
    hide Next;
    assert steps[..|steps|] == steps;
  }

  lemma NobodyStands(s: State)
    requires s.flight == map[]
    ensures forall p :: Standing(s, p) == {}
  {
  }

  lemma StartBudget(s: State, k: nat, end: int)
    requires s.flight == map[] && 0 <= s.count && s.now <= end
    ensures Budget(s, k, end) <= (MAX_FAILED_LOGINS - 1 + k) * ((end - s.now) / LOCK + 1)
  {
    hide Standing;
    NobodyStands(s);
    if Closed(s) {
      FullGrows(k, if end < s.lockedUntil.value then 0 else (end - s.lockedUntil.value) / LOCK + 1,
               (end - s.now) / LOCK + 1);
    }
  }

  // --------------------------------------------------------- one at a time

  /** The account row of a state, and the one wrong attempt at its time. */
  function Row(s: State, id: string): User {
    User(id, true, s.count, s.lockedUntil)
  }

  /**
   With nothing else in flight, the four statements do what one authentication with
   a wrong password does, and compare the hash exactly when it does.
   */
  lemma SoloIsAuthenticate(s: State, users: Users, email: string, id: string, n: nat)
    requires s.flight == map[] && email in users && users[email] == Row(s, id)
    ensures var a := Attempt(email, false, s.now);
            var t, users' := After(s, [Read(n), Compare(n), Count(n)] + [Lock(n)]), Authenticate(users, a).1;
            && t.flight == map[] && t.now == s.now && users' == users[email := Row(t, id)]
            && t.compared == s.compared + if Verifies(users, a) then 1 else 0
  {
    hide Fold;
    FoldSplit(Next, s, [Read(n), Compare(n), Count(n)], [Lock(n)]);
    FoldThree(Next, s, Read(n), Compare(n), Count(n));
    FoldOne(Next, After(s, [Read(n), Compare(n), Count(n)]), Lock(n));
    SoloSteps(s, n);
  }

  lemma SoloSteps(s: State, n: nat)
    requires s.flight == map[]
    ensures Next(Next(Next(Next(s, Read(n)), Compare(n)), Count(n)), Lock(n))
         == if Closed(s) then s
            else if s.count + 1 >= MAX_FAILED_LOGINS
            then s.(count := 0, lockedUntil := Some(s.now + LOCK), compared := s.compared + 1)
            else s.(count := s.count + 1, compared := s.compared + 1)
  {
    if !Closed(s) {
      assert s.flight[n := Passed] == map[n := Passed];
      assert map[n := Passed][n := Compared] == map[n := Compared];
      assert map[n := Compared][n := Locking] == map[n := Locking];
      assert map[n := Compared] - {n} == map[] && map[n := Locking] - {n} == map[];
    }
  }
}
