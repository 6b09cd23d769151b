/** Password authentication: the failure counter and the timed lock. Times are in ms. */
module Accounts {
  import opened Prelude

  const MAX_FAILED_LOGINS := 10
  const LOCK := 15 * 60_000

  datatype User = User(id: string, hasPassword: bool, failedCount: int, lockedUntil: Option<int>)

  datatype Result = Ok(userId: string) | Invalid(knownId: Option<string>) | Locked(userId: string) | LockedNow(userId: string)

  /** One call: the email, whether the password matches the stored hash, and the time. */
  datatype Attempt = Attempt(email: string, matches: bool, now: int)

  type Users = map<string, User>

  predicate IsLocked(u: User, now: int) {
    u.lockedUntil.Some? && u.lockedUntil.value > now
  }

  /** The stored hash is only compared when the account exists, is not locked and has a password. */
  predicate Verifies(users: Users, a: Attempt) {
    a.email in users && !IsLocked(users[a.email], a.now) && users[a.email].hasPassword
  }

  function Authenticate(users: Users, a: Attempt): (Result, Users) {
    if a.email !in users then
      (Invalid(None), users)
    else
      var u := users[a.email];
      if IsLocked(u, a.now) then (Locked(u.id), users)
      else if !u.hasPassword then (Invalid(Some(u.id)), users)
      else if a.matches then (Ok(u.id), users[a.email := u.(failedCount := 0, lockedUntil := None)])
      else if u.failedCount + 1 >= MAX_FAILED_LOGINS then
        (LockedNow(u.id), users[a.email := u.(failedCount := 0, lockedUntil := Some(a.now + LOCK))])
      else
        (Invalid(Some(u.id)), users[a.email := u.(failedCount := u.failedCount + 1)])
  }

  /** The account is locked at that time. */
  predicate LockedAt(u: User, now: int) {
    u.lockedUntil.Some? && now < u.lockedUntil.value
  }

  /**
   Who is let in, and what everybody else is told, from the account and the attempt:
   the right password of an open account with one, and nothing else, signs in as its
   own user.
   */
  lemma SignsInIff(users: Users, a: Attempt)
    ensures var (r, users') := Authenticate(users, a);
            && (r.Ok? <==> a.email in users && !LockedAt(users[a.email], a.now) && users[a.email].hasPassword && a.matches)
            && (r.Locked? <==> a.email in users && LockedAt(users[a.email], a.now))
            && (r.LockedNow? <==> a.email in users && !LockedAt(users[a.email], a.now) && users[a.email].hasPassword
                                  && !a.matches && users[a.email].failedCount >= 9)
            && (r == Invalid(None) <==> a.email !in users)
            && (r.Invalid? && r.knownId.Some? <==>
                  a.email in users && !LockedAt(users[a.email], a.now)
                  && (!users[a.email].hasPassword || (!a.matches && users[a.email].failedCount < 9)))
            && (a.email in users ==> match r
                                     case Ok(id) => id == users[a.email].id
                                     case Locked(id) => id == users[a.email].id
                                     case LockedNow(id) => id == users[a.email].id
                                     case Invalid(id) => id == Some(users[a.email].id))
  {
  }

  /** What each answer leaves: a success clears count and lock, the tenth failure locks for fifteen minutes. */
  lemma AnswerLeaves(users: Users, a: Attempt)
    ensures var (r, users') := Authenticate(users, a);
            && users'.Keys == users.Keys
            && (forall e :: e in users && e != a.email ==> users'[e] == users[e])
            && (a.email in users ==>
                  var u, u' := users[a.email], users'[a.email];
                  && u'.id == u.id && u'.hasPassword == u.hasPassword
                  && (r.Ok? ==> u'.failedCount == 0 && u'.lockedUntil == None)
                  && (r.LockedNow? ==> u'.failedCount == 0 && u'.lockedUntil == Some(a.now + 900_000))
                  && (r.Locked? || !u.hasPassword ==> u' == u)
                  && (r.Invalid? && u.hasPassword ==>
                        u'.failedCount == u.failedCount + 1 && u'.lockedUntil == u.lockedUntil))
  {
  }

  function AfterRun(users: Users, run: seq<Attempt>): Users
    decreases |run|
  {
    if run == [] then users else AfterRun(Authenticate(users, run[0]).1, run[1..])
  }

  /** The attempts of a run on one account. */
  function Tries(run: seq<Attempt>, email: string): nat {
    if run == [] then 0 else (if run[0].email == email then 1 else 0) + Tries(run[1..], email)
  }

  predicate AllWrong(run: seq<Attempt>, email: string) {
    forall i :: 0 <= i < |run| && run[i].email == email ==> !run[i].matches
  }

  lemma {:induction false} WrongOnesAddUp(users: Users, run: seq<Attempt>, email: string)
    requires email in users && users[email].hasPassword && users[email].lockedUntil == None && AllWrong(run, email)
    requires 0 <= users[email].failedCount && users[email].failedCount + Tries(run, email) <= 9
    ensures email in AfterRun(users, run)
    ensures AfterRun(users, run)[email] == users[email].(failedCount := users[email].failedCount + Tries(run, email))
    decreases |run|
  {
    if run != [] {
      AnswerLeaves(users, run[0]);
      SignsInIff(users, run[0]);
      hide Authenticate;
      assert forall i :: 0 <= i < |run[1..]| ==> run[1..][i] == run[i + 1];
      WrongOnesAddUp(Authenticate(users, run[0]).1, run[1..], email);
    }
  }

  /**
   After a success, and whatever happens on other accounts: the tenth wrong attempt
   in a row locks the account, and none before it does.
   */
  lemma TenthWrongLocks(users: Users, success: Attempt, run: seq<Attempt>, wrong: Attempt)
    requires Authenticate(users, success).0.Ok? && wrong.email == success.email && !wrong.matches
    requires AllWrong(run, success.email) && Tries(run, success.email) <= 9
    ensures var id := users[success.email].id;
            Authenticate(AfterRun(Authenticate(users, success).1, run), wrong).0
            == if Tries(run, success.email) == 9 then LockedNow(id) else Invalid(Some(id))
  {
    SignsInIff(users, success);
    AnswerLeaves(users, success);
    var users1 := Authenticate(users, success).1;
    WrongOnesAddUp(users1, run, success.email);
    SignsInIff(AfterRun(users1, run), wrong);
    hide Authenticate, AfterRun, Tries;
  }

  /** How many calls of a run compare the stored hash of one account. */
  function Verifications(users: Users, run: seq<Attempt>, email: string): nat
    decreases |run|
  {
    if run == [] then
      0
    else
      (if run[0].email == email && Verifies(users, run[0]) then 1 else 0)
      + Verifications(Authenticate(users, run[0]).1, run[1..], email)
  }

  predicate CountsBounded(users: Users) {
    forall e :: e in users ==> 0 <= users[e].failedCount < MAX_FAILED_LOGINS
  }

  /** The stored counter is below the limit after every call. */
  lemma CounterStaysBelow(users: Users, a: Attempt)
    requires CountsBounded(users)
    ensures CountsBounded(Authenticate(users, a).1)
    ensures forall e :: e in users && e != a.email ==>
              e in Authenticate(users, a).1 && Authenticate(users, a).1[e] == users[e]
  {
  }

  predicate Ordered(run: seq<Attempt>) {
    forall i, j :: 0 <= i < j < |run| ==> run[i].now <= run[j].now
  }

  /** When the account's next verification can happen, at the earliest, from time `now`. */
  function Opens(u: User, now: int): int {
    if IsLocked(u, now) then u.lockedUntil.value else now
  }

  /**
   The verifications still possible until `end`: the rest of the current count,
   and a full count for every lock period that fits.
   */
  function Budget(u: User, now: int, end: int): int {
    if end < Opens(u, now) then 0
    else MAX_FAILED_LOGINS - u.failedCount + MAX_FAILED_LOGINS * ((end - Opens(u, now)) / LOCK)
  }

  lemma BudgetShrinks(u: User, now: int, later: int, end: int)
    requires now <= later && 0 <= u.failedCount < MAX_FAILED_LOGINS
    ensures Budget(u, later, end) <= Budget(u, now, end)
  {
  }

  /** One wrong attempt takes what it uses out of the budget. */
  lemma AttemptSpends(users: Users, a: Attempt, end: int)
    requires a.email in users && 0 <= users[a.email].failedCount < MAX_FAILED_LOGINS && !a.matches && a.now <= end
    ensures a.email in Authenticate(users, a).1
    ensures (if Verifies(users, a) then 1 else 0) + Budget(Authenticate(users, a).1[a.email], a.now, end)
         <= Budget(users[a.email], a.now, end)
  {
  }

  lemma {:induction false} WithinBudget(users: Users, run: seq<Attempt>, email: string, now: int, end: int)
    requires CountsBounded(users) && email in users && Ordered(run)
    requires forall i :: 0 <= i < |run| ==> now <= run[i].now <= end && (run[i].email == email ==> !run[i].matches)
    ensures Verifications(users, run, email) <= if run == [] then 0 else Budget(users[email], now, end)
    decreases |run|
  {
    if run != [] {
      var a, rest := run[0], run[1..];
      var users' := Authenticate(users, a).1;
      CounterStaysBelow(users, a);
      BudgetShrinks(users[email], now, a.now, end);
      forall i | 0 <= i < |rest|
        ensures a.now <= rest[i].now <= end && (rest[i].email == email ==> !rest[i].matches)
      {
        assert rest[i] == run[i + 1];
      }
      assert Ordered(rest);
      if a.email == email {
        AttemptSpends(users, a, end);
      }
      assert email in users';
      WithinBudget(users', rest, email, a.now, end);
      BudgetNonNegative(users'[email], a.now, end);
    }
  }

  lemma BudgetNonNegative(u: User, now: int, end: int)
    requires 0 <= u.failedCount < MAX_FAILED_LOGINS
    ensures Budget(u, now, end) >= 0
  {
  }

  /**
   Over any run in which the account sees only wrong passwords, however other
   accounts are used, the stored hash is compared at most ten times per lock
   period begun.
   */
  lemma {:induction false} LockoutRateBound(users: Users, run: seq<Attempt>, email: string)
    requires CountsBounded(users) && email in users && run != [] && Ordered(run)
    requires forall i :: 0 <= i < |run| && run[i].email == email ==> !run[i].matches
    ensures Verifications(users, run, email)
         <= MAX_FAILED_LOGINS * ((run[|run| - 1].now - run[0].now) / LOCK + 1)
  {
    hide Verifications, CountsBounded, Budget;
    var now, end := run[0].now, run[|run| - 1].now;
    assert forall i :: 0 <= i < |run| ==> now <= run[i].now <= end;
    WithinBudget(users, run, email, now, end);
    BudgetAtMost(users, email, now, end);
  }

  lemma BudgetAtMost(users: Users, email: string, now: int, end: int)
    requires CountsBounded(users) && email in users && now <= end
    ensures Budget(users[email], now, end) <= MAX_FAILED_LOGINS * ((end - now) / LOCK + 1)
  {
  }

  // ------------------------------------------------------- the bound is reached

  /** `k` wrong attempts at one instant. */
  function Burst(email: string, now: int, k: nat): seq<Attempt> {
    seq(k, i => Attempt(email, false, now))
  }

  /** Ten wrong attempts at the start of each of `n` lock periods. */
  function Bursts(email: string, now: int, n: nat): seq<Attempt>
    decreases n
  {
    if n == 0 then [] else Burst(email, now, MAX_FAILED_LOGINS) + Bursts(email, now + LOCK, n - 1)
  }

  lemma {:induction false} BurstLocks(users: Users, email: string, now: int, k: nat, rest: seq<Attempt>)
    requires email in users && users[email].hasPassword && !IsLocked(users[email], now)
    requires k > 0 && users[email].failedCount == MAX_FAILED_LOGINS - k
    ensures Verifications(users, Burst(email, now, k) + rest, email)
         == k + Verifications(users[email := users[email].(failedCount := 0, lockedUntil := Some(now + LOCK))], rest, email)
    decreases k
  {
    var run := Burst(email, now, k) + rest;
    var users' := Authenticate(users, run[0]).1;
    assert run[0] == Attempt(email, false, now);
    assert run[1..] == Burst(email, now, k - 1) + rest;
    if k > 1 {
      BurstLocks(users', email, now, k - 1, rest);
      assert users[email := users'[email]][email := users[email].(failedCount := 0, lockedUntil := Some(now + LOCK))]
          == users[email := users[email].(failedCount := 0, lockedUntil := Some(now + LOCK))];
    } else {
      assert run[1..] == rest;
    }
  }

  /** A patient guesser gets exactly the bound: ten comparisons at the start of every lock period. */
  lemma {:induction false} BoundIsReached(users: Users, email: string, now: int, n: nat)
    requires email in users && users[email].hasPassword && users[email].failedCount == 0
    requires !IsLocked(users[email], now)
    ensures Verifications(users, Bursts(email, now, n), email) == MAX_FAILED_LOGINS * n
    decreases n
  {
    if n > 0 {
      var rest := Bursts(email, now + LOCK, n - 1);
      BurstLocks(users, email, now, MAX_FAILED_LOGINS, rest);
      var users' := users[email := users[email].(failedCount := 0, lockedUntil := Some(now + LOCK))];
      BoundIsReached(users', email, now + LOCK, n - 1);
    }
  }

  // -------------------------------------------------------------- the handle

  class Store {
    var users: Users

    constructor (users: Users)
      ensures this.users == users
    {
      this.users := users;
    }

    method AuthenticateUser(a: Attempt) returns (result: Result, verified: bool)
      modifies this
      ensures (result, users) == Authenticate(old(users), a)
      ensures verified == Verifies(old(users), a)
    {
      verified := false;
      if a.email !in users {
        return Invalid(None), false;
      }
      var user := users[a.email];
      if user.lockedUntil.Some? && user.lockedUntil.value > a.now {
        return Locked(user.id), false;
      }
      if !user.hasPassword {
        return Invalid(Some(user.id)), false;
      }
      verified := true;
      if a.matches {
        users := users[a.email := user.(failedCount := 0, lockedUntil := None)];
        return Ok(user.id), true;
      }
      ghost var before := users;
      users := users[a.email := user.(failedCount := user.failedCount + 1)];
      if users[a.email].failedCount >= MAX_FAILED_LOGINS {
        users := users[a.email := users[a.email].(failedCount := 0, lockedUntil := Some(a.now + LOCK))];
        assert users == before[a.email := user.(failedCount := 0, lockedUntil := Some(a.now + LOCK))];
        return LockedNow(user.id), true;
      }
      result := Invalid(Some(user.id));
    }
  }
}
