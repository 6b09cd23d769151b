/** When the bounds on audited denials are reached, and when emptying the map breaks them. */
module DenialBounds {
  import opened Prelude
  import opened DenialAudit

  /** Denials of one user at one instant. */
  function Repeat(user: string, now: int, k: nat): seq<Denial> {
    if k == 0 then [] else [Denial(user, now)] + Repeat(user, now, k - 1)
  }

  lemma {:induction false} RepeatIs(user: string, now: int, k: nat)
    ensures |Repeat(user, now, k)| == k && forall i :: 0 <= i < k ==> Repeat(user, now, k)[i] == Denial(user, now)
    decreases k
  {
    if k > 0 {
      RepeatIs(user, now, k - 1);
    }
  }

  /** What a trace does to a user's rows, the emptyings and the map. */
  predicate Does(c: Counters, trace: seq<Denial>, user: string, rows: nat, clearings: nat, c': Counters) {
    RowCount(c, trace, user) == rows && Clearings(c, trace) == clearings && FinalCounters(c, trace) == c'
  }

  lemma {:induction false} DoesBoth(c: Counters, a: seq<Denial>, b: seq<Denial>, user: string, ra: nat, na: nat,
                                    c1: Counters, rb: nat, nb: nat, c2: Counters)
    requires Does(c, a, user, ra, na, c1) && Does(c1, b, user, rb, nb, c2)
    ensures Does(c, a + b, user, ra + rb, na + nb, c2)
    decreases |a|
  {
    hide OnDenial, Clears, RowCount;
    if a == [] {
      assert a + b == b;
      NoRows(c, user);
    } else {
      var d := a[0];
      var c' := OnDenial(c, d).0;
      assert (a + b)[0] == d && (a + b)[1..] == a[1..] + b;
      RowCountStep(c, a, user);
      RowCountStep(c, a + b, user);
      DoesBoth(c', a[1..], b, user, RowCount(c', a[1..], user), Clearings(c', a[1..]), c1, rb, nb, c2);
    }
  }

  lemma DoesOne(c: Counters, d: Denial, user: string)
    ensures Does(c, [d], user, if d.user == user && OnDenial(c, d).1.Some? then 1 else 0,
                 if Clears(c, d) then 1 else 0, OnDenial(c, d).0)
  {
    hide OnDenial, Clears, RowCount;
    var c' := OnDenial(c, d).0;
    assert [d][1..] == [];
    RowCountStep(c, [d], user);
    NoRows(c', user);
    assert Clearings(c', []) == 0 && FinalCounters(c', []) == c';
  }

  /** In a running window each denial up to the eleventh is written. */
  lemma {:induction false} Running(c: Counters, user: string, now: int, k: nat)
    requires user in c && !Expired(Some(c[user]), now) && 1 <= c[user].count && c[user].count + k <= DENIALS_AUDITED + 1
    ensures Does(c, Repeat(user, now, k), user, k, 0, c[user := c[user].(count := c[user].count + k)])
    decreases k
  {
    hide RowCount;
    if k == 0 {
      NoRows(c, user);
      assert c[user := c[user]] == c;
    } else {
      var c1 := c[user := c[user].(count := c[user].count + 1)];
      DoesOne(c, Denial(user, now), user);
      Running(c1, user, now, k - 1);
      var c2 := c[user := c[user].(count := c[user].count + k)];
      assert c1[user := c1[user].(count := c1[user].count + (k - 1))] == c2;
      DoesBoth(c, [Denial(user, now)], Repeat(user, now, k - 1), user, 1, 0, c1, k - 1, 0, c2);
    }
  }

  /** A burst of eleven that opens a window is written whole. */
  lemma Opening(c: Counters, user: string, now: int)
    requires Expired(WindowOf(c, user), now) && |c| < COUNTER_CEILING
    ensures Does(c, Repeat(user, now, DENIALS_AUDITED + 1), user, DENIALS_AUDITED + 1, 0,
                 c[user := Window(now, DENIALS_AUDITED + 1)])
  {
    hide RowCount;
    var c1 := c[user := Window(now, 1)];
    DoesOne(c, Denial(user, now), user);
    Running(c1, user, now, DENIALS_AUDITED);
    var c2 := c[user := Window(now, DENIALS_AUDITED + 1)];
    assert c1[user := c1[user].(count := 1 + DENIALS_AUDITED)] == c2;
    DoesBoth(c, [Denial(user, now)], Repeat(user, now, DENIALS_AUDITED), user, 1, 0, c1, DENIALS_AUDITED, 0, c2);
  }

  // ------------------------------------------------------ emptying the map

  /** Eleven denials of a user, one of somebody else, and eleven of the user again, at one instant. */
  function AroundEmptying(user: string, other: string, now: int): seq<Denial> {
    Repeat(user, now, DENIALS_AUDITED + 1) + ([Denial(other, now)] + Repeat(user, now, DENIALS_AUDITED + 1))
  }

  /**
   With a map one short of full, the user's first denial fills it, the other user's
   empties it, and the user's count starts again: twenty-two rows in one instant.
   */
  lemma EmptyingPassesBound(c: Counters, user: string, other: string, now: int)
    requires |c| == COUNTER_CEILING - 1 && user !in c && other != user && Expired(WindowOf(c, other), now)
    ensures RowCount(c, AroundEmptying(user, other, now), user) == 2 * (DENIALS_AUDITED + 1)
    ensures Clearings(c, AroundEmptying(user, other, now)) == 1
    ensures var trace := AroundEmptying(user, other, now);
            trace != [] && Ordered(trace) && forall i :: 0 <= i < |trace| ==> trace[i].now == now
  {
    hide RowCount, Clearings, FinalCounters;
    var burst := Repeat(user, now, DENIALS_AUDITED + 1);
    var full := c[user := Window(now, DENIALS_AUDITED + 1)];
    var one := map[other := Window(now, 1)];
    Opening(c, user, now);
    SizeAfterUpdate(c, user, Window(now, DENIALS_AUDITED + 1));
    DoesOne(full, Denial(other, now), user);
    assert OnDenial(full, Denial(other, now)).0 == one;
    Opening(one, user, now);
    var last := one[user := Window(now, DENIALS_AUDITED + 1)];
    DoesBoth(full, [Denial(other, now)], burst, user, 0, 1, one, DENIALS_AUDITED + 1, 0, last);
    DoesBoth(c, burst, [Denial(other, now)] + burst, user, DENIALS_AUDITED + 1, 0, full, DENIALS_AUDITED + 1, 1, last);
    RepeatIs(user, now, DENIALS_AUDITED + 1);
  }

  /** A span of denials of users from a set, that starts with no running window of `user`. */
  predicate Starts(users: set<string>, c: Counters, trace: seq<Denial>, user: string) {
    && trace != [] && Ordered(trace) && WindowsValid(c, trace[0].now) && Expired(WindowOf(c, user), trace[0].now)
    && c.Keys <= users && forall i :: 0 <= i < |trace| ==> trace[i].user in users
  }

  predicate WithinMinutes(c: Counters, trace: seq<Denial>, user: string)
    requires trace != []
  {
    RowCount(c, trace, user) <= (DENIALS_AUDITED + 1) * ((trace[|trace| - 1].now - trace[0].now) / WINDOW + 1)
  }

  /** A part of a set of the given size that contains `x` and not `y`. */
  lemma {:induction false} PartOf(users: set<string>, x: string, y: string, n: nat) returns (part: set<string>)
    requires x in users && y in users && x != y && 1 <= n < |users|
    ensures part <= users && |part| == n && x in part && y !in part
    decreases n
  {
    if n == 1 {
      part := {x};
    } else {
      part := PartOf(users, x, y, n - 1);
      assert |users - {y}| == |users| - 1;
      if users - {y} <= part {
        Subset(users - {y}, part);
        assert false;
      }
      var z :| z in users - {y} && z !in part;
      part := part + {z};
    }
  }

  lemma Subset(a: set<string>, b: set<string>)
    requires a <= b
    ensures |a| <= |b|
  {
    assert b == a + (b - a);
  }

  /**
   No span can pass eleven rows per minute begun if and only if fewer users than the
   ceiling are ever denied.
   */
  lemma BoundIffFewUsers(users: set<string>)
    ensures (forall c, trace, user :: Starts(users, c, trace, user) ==> WithinMinutes(c, trace, user))
       <==> |users| < COUNTER_CEILING
  {
    hide RowCount, Clearings;
    if |users| < COUNTER_CEILING {
      forall c, trace, user | Starts(users, c, trace, user) ensures WithinMinutes(c, trace, user) {
        FewUsersNeverClear(c, trace, users);
        DenialRateBound(c, trace, user);
      }
    } else {
      var c, trace, user := TooManyUsers(users);
      assert Starts(users, c, trace, user) && !WithinMinutes(c, trace, user);
    }
  }

  /** With as many users as the ceiling, one of them with an expired window, the bound is passed. */
  lemma TooManyUsers(users: set<string>) returns (c: Counters, trace: seq<Denial>, user: string)
    requires |users| >= COUNTER_CEILING
    ensures Starts(users, c, trace, user) && !WithinMinutes(c, trace, user)
  {
    hide RowCount, Clearings;
    user :| user in users;
    assert |users - {user}| == |users| - 1;
    var other :| other in users - {user};
    var part := PartOf(users, other, user, COUNTER_CEILING - 1);
    c := map u | u in part :: Window(0, 1);
    assert c.Keys == part && |c.Keys| == |c|;
    trace := AroundEmptying(user, other, WINDOW);
    EmptyingPassesBound(c, user, other, WINDOW);
    RepeatIs(user, WINDOW, DENIALS_AUDITED + 1);
  }

  // ------------------------------------------- a span that starts in a window

  /** Ten denials in the last millisecond of a running window, then eleven in the next one. */
  function AcrossEnd(user: string, now: int): seq<Denial> {
    Repeat(user, now, DENIALS_AUDITED) + Repeat(user, now + 1, DENIALS_AUDITED + 1)
  }

  /** The bound for any span is reached: twenty-one rows in a millisecond, with nothing emptied. */
  lemma AnywhereIsReached(c: Counters, user: string, now: int)
    requires user in c && c[user] == Window(now - WINDOW + 1, 1) && |c| < COUNTER_CEILING
    ensures RowCount(c, AcrossEnd(user, now), user) == (DENIALS_AUDITED + 1) + DENIALS_AUDITED
    ensures Clearings(c, AcrossEnd(user, now)) == 0
    ensures var trace := AcrossEnd(user, now);
            trace != [] && Ordered(trace) && trace[|trace| - 1].now - trace[0].now == 1
  {
    hide RowCount, Clearings, FinalCounters;
    var c1 := c[user := c[user].(count := DENIALS_AUDITED + 1)];
    Running(c, user, now, DENIALS_AUDITED);
    SizeAfterUpdate(c, user, c1[user]);
    Opening(c1, user, now + 1);
    var c2 := c1[user := Window(now + 1, DENIALS_AUDITED + 1)];
    DoesBoth(c, Repeat(user, now, DENIALS_AUDITED), Repeat(user, now + 1, DENIALS_AUDITED + 1), user,
             DENIALS_AUDITED, 0, c1, DENIALS_AUDITED + 1, 0, c2);
    RepeatIs(user, now, DENIALS_AUDITED);
    RepeatIs(user, now + 1, DENIALS_AUDITED + 1);
  }
}
