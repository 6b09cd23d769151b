/**
 Email delivery: claim a row per job, count against the daily cap, send, mark
 sent. Jobs run concurrently, each statement one atomic step; at most one
 attempt per job key is in progress.
 */
module Dispatch {
  import opened Prelude

  const DAILY_EMAIL_CAP := 20

  datatype Row = Row(user: Option<string>, day: int, sent: bool)

  /** Where the attempt for a key stands; `Mailed` is sent but not yet marked. */
  datatype Pc = Claimed | Conflicted | Capped | Sending | Mailed

  /**
   The dispatch rows by dedupe key, the attempts in progress, and two history
   variables: the keys ever sent, and the keys whose claim was never counted on
   its own day (the attempt died first, or midnight passed in between).
   */
  datatype State = State(today: int, rows: map<string, Row>, pc: map<string, Pc>,
                         delivered: set<string>, unchecked: set<string>)

  datatype Step =
    | Claim(key: string, user: Option<string>)
    | Look(key: string)
    | Count(key: string)
    | Unclaim(key: string)
    | Send(key: string, fails: bool)
    | Mark(key: string)
    | Die(key: string)
    | Midnight

  /** The user's rows created on or after a day. */
  function SinceDay(rows: map<string, Row>, user: string, day: int): set<string> {
    set k | k in rows && rows[k].user == Some(user) && rows[k].day >= day
  }

  predicate At(s: State, k: string, pc: Pc) {
    k in s.pc && s.pc[k] == pc
  }

  /** A step that is not the attempt's next statement does nothing. */
  function Next(s: State, step: Step): State {
    match step
    case Claim(k, user) =>
      if k in s.pc then s
      else if k in s.rows then s.(pc := s.pc[k := Conflicted])
      else s.(rows := s.rows[k := Row(user, s.today, false)], pc := s.pc[k := Claimed])
    case Look(k) =>
      if !At(s, k, Conflicted) || k !in s.rows then s
      else if s.rows[k].sent then s.(pc := s.pc - {k})
      else s.(pc := s.pc[k := Sending])
    case Count(k) =>
      if !At(s, k, Claimed) || k !in s.rows then s
      else if s.rows[k].user.None? then s.(pc := s.pc[k := Sending])
      else if |SinceDay(s.rows, s.rows[k].user.value, s.today)| > DAILY_EMAIL_CAP then s.(pc := s.pc[k := Capped])
      else s.(pc := s.pc[k := Sending], unchecked := s.unchecked + if s.rows[k].day == s.today then {} else {k})
    case Unclaim(k) =>
      if !At(s, k, Capped) then s else s.(rows := s.rows - {k}, pc := s.pc - {k})
    case Send(k, fails) =>
      if !At(s, k, Sending) then s
      else if fails then s.(pc := s.pc - {k})
      else s.(pc := s.pc[k := Mailed], delivered := s.delivered + {k})
    case Mark(k) =>
      if !At(s, k, Mailed) || k !in s.rows then s
      else s.(rows := s.rows[k := s.rows[k].(sent := true)], pc := s.pc - {k})
    case Die(k) =>
      if k !in s.pc then s
      else s.(pc := s.pc - {k}, unchecked := s.unchecked + if s.pc[k] in {Claimed, Capped} then {k} else {})
    case Midnight => s.(today := s.today + 1)
  }

  function After(s: State, steps: seq<Step>): State {
    Fold(Next, s, steps)
  }

  // ------------------------------------------------------------- the cap

  /** The user's rows of one day whose claim has been let through. */
  function Admitted(s: State, user: string, day: int): set<string> {
    set k | k in s.rows && s.rows[k].user == Some(user) && s.rows[k].day == day
            && !(k in s.pc && s.pc[k] in {Claimed, Capped}) && k !in s.unchecked
  }

  /** The jobs claimed on a day for a user that were ever sent. */
  function SentOf(s: State, user: string, day: int): set<string> {
    set k | k in s.rows && s.rows[k].user == Some(user) && s.rows[k].day == day && k in s.delivered
  }

  function UncheckedOf(s: State, user: string, day: int): set<string> {
    set k | k in s.rows && s.rows[k].user == Some(user) && s.rows[k].day == day && k in s.unchecked
  }

  ghost predicate Inv(s: State) {
    && (forall k :: k in s.delivered ==> k in s.rows && !(k in s.pc && s.pc[k] in {Claimed, Capped}))
    && (forall k :: k in s.pc ==> k in s.rows && (s.pc[k] != Conflicted ==> !s.rows[k].sent))
    && (forall user, day :: |Admitted(s, user, day)| <= DAILY_EMAIL_CAP)
  }

  lemma FewerAdmitted(a: set<string>, b: set<string>)
    requires a <= b
    ensures |a| <= |b|
    decreases b
  {
    if x :| x in b - a {
      FewerAdmitted(a, b - {x});
    } else {
      assert b == a + (b - a);
    }
  }

  /** Only a count within the cap adds to the admitted rows of a day. */
  lemma AdmittedStep(s: State, step: Step, user: string, day: int)
    requires Inv(s)
    ensures |Admitted(Next(s, step), user, day)| <= DAILY_EMAIL_CAP
  {
    var s' := Next(s, step);
    assert |Admitted(s, user, day)| <= DAILY_EMAIL_CAP;
    if step.Count? && s' != s && s'.pc[step.key] == Sending && s.rows[step.key].user == Some(user)
       && s.rows[step.key].day == day == s.today {
      assert Admitted(s', user, day) <= SinceDay(s.rows, user, s.today);
      FewerAdmitted(Admitted(s', user, day), SinceDay(s.rows, user, s.today));
    } else {
      assert Admitted(s', user, day) <= Admitted(s, user, day);
      FewerAdmitted(Admitted(s', user, day), Admitted(s, user, day));
    }
  }

  lemma NextKeepsInv(s: State, step: Step)
    requires Inv(s)
    ensures Inv(Next(s, step))
  {
    forall user, day ensures |Admitted(Next(s, step), user, day)| <= DAILY_EMAIL_CAP {
      AdmittedStep(s, step, user, day);
    }
  }

  lemma {:induction false} AfterInv(s: State, steps: seq<Step>)
    requires Inv(s)
    ensures Inv(After(s, steps))
    decreases |steps|
  {
    hide Inv, Next;
    if steps != [] {
      AfterInv(s, steps[..|steps| - 1]);
      NextKeepsInv(After(s, steps[..|steps| - 1]), steps[|steps| - 1]);
    }
  }

  /**
   Under every interleaving, whatever dies and however many days pass: of the
   jobs claimed for a user on a day, those ever sent exceed the cap by no more
   than the claims that were never counted on that day.
   */
  lemma SentWithinCap(s: State, steps: seq<Step>, user: string, day: int)
    requires Inv(s)
    ensures |SentOf(After(s, steps), user, day)|
         <= DAILY_EMAIL_CAP + |UncheckedOf(After(s, steps), user, day)|
  {
    AfterInv(s, steps);
    var t := After(s, steps);
    var a, u, d := Admitted(t, user, day), UncheckedOf(t, user, day), SentOf(t, user, day);
    assert |a| <= DAILY_EMAIL_CAP;
    assert d <= a + u;
    FewerAdmitted(d, a + u);
  }

  /** No attempt dies outside the send, and the day does not change. */
  predicate SendFailuresOnly(steps: seq<Step>) {
    forall i :: 0 <= i < |steps| ==> !steps[i].Die? && !steps[i].Midnight?
  }

  /** Claims left uncounted are of other days, and past the point where they could be undone and made again. */
  predicate UncountedAreOld(s: State) {
    forall k :: k in s.unchecked ==>
      k in s.rows && s.rows[k].day != s.today && !(k in s.pc && s.pc[k] in {Claimed, Capped})
  }

  lemma StaysOld(s: State, step: Step)
    requires UncountedAreOld(s) && !step.Die? && !step.Midnight?
    ensures UncountedAreOld(Next(s, step)) && Next(s, step).today == s.today
  {
    hide SinceDay;
  }

  lemma {:induction false} AllCounted(s: State, steps: seq<Step>)
    requires SendFailuresOnly(steps) && UncountedAreOld(s)
    ensures UncountedAreOld(After(s, steps)) && After(s, steps).today == s.today
    decreases |steps|
  {
    hide UncountedAreOld, Next;
    if steps != [] {
      var n := |steps| - 1;
      AllCounted(s, steps[..n]);
      StaysOld(After(s, steps[..n]), steps[n]);
    }
  }

  /** With failures only in the send, on one day, whatever mail of other days the table holds: never more than the cap. */
  lemma CapHolds(s: State, steps: seq<Step>, user: string)
    requires Inv(s) && SendFailuresOnly(steps) && UncountedAreOld(s)
    ensures |SentOf(After(s, steps), user, s.today)| <= DAILY_EMAIL_CAP
  {
    hide Inv, After;
    SentWithinCap(s, steps, user, s.today);
    AllCounted(s, steps);
    assert UncheckedOf(After(s, steps), user, s.today) == {};
  }

  /** A key marked sent stays marked, and is not sent again: no attempt of it is ever about to send. */
  lemma {:induction false} NeverResent(s: State, steps: seq<Step>, k: string, fails: bool)
    requires Inv(s) && k in After(s, steps).rows && After(s, steps).rows[k].sent
    ensures Next(After(s, steps), Send(k, fails)) == After(s, steps)
    ensures Next(After(s, steps), Look(k)).pc == After(s, steps).pc - {k} || k !in After(s, steps).pc
    ensures forall step :: k in Next(After(s, steps), step).rows && Next(After(s, steps), step).rows[k].sent
  {
    AfterInv(s, steps);
  }

  // ------------------------------------------------ how the cap is exceeded

  /** An attempt that dies right after its claim, and the retry that finds the claim. */
  function DieThenRetry(k: string, user: string): seq<Step> {
    [Claim(k, Some(user)), Die(k), Claim(k, Some(user)), Look(k), Send(k, false), Mark(k)]
  }

  lemma RetrySkipsCount(s: State, k: string, user: string)
    requires k !in s.rows && k !in s.pc
    ensures After(s, DieThenRetry(k, user))
         == s.(rows := s.rows[k := Row(Some(user), s.today, true)],
               delivered := s.delivered + {k}, unchecked := s.unchecked + {k})
  {
    hide Next, Fold;
    var row := Row(Some(user), s.today, false);
    FoldSix(Next, s, Claim(k, Some(user)), Die(k), Claim(k, Some(user)), Look(k), Send(k, false), Mark(k));
    Claims(s, k, user);
    var s1 := s.(rows := s.rows[k := row], pc := s.pc[k := Claimed]);
    Dies(s1, k);
    var s2 := s1.(pc := s.pc, unchecked := s.unchecked + {k});
    assert s1.pc - {k} == s.pc;
    Reclaims(s2, k, user);
    SendsAndMarks(s2, k);
  }

  lemma Claims(s: State, k: string, user: string)
    requires k !in s.rows && k !in s.pc
    ensures Next(s, Claim(k, Some(user)))
         == s.(rows := s.rows[k := Row(Some(user), s.today, false)], pc := s.pc[k := Claimed])
  {
  }

  lemma Dies(s: State, k: string)
    requires At(s, k, Claimed)
    ensures Next(s, Die(k)) == s.(pc := s.pc - {k}, unchecked := s.unchecked + {k})
  {
  }

  lemma Reclaims(s: State, k: string, user: string)
    requires k in s.rows && !s.rows[k].sent && k !in s.pc
    ensures Next(Next(s, Claim(k, Some(user))), Look(k)) == s.(pc := s.pc[k := Sending])
  {
    assert s.pc[k := Conflicted][k := Sending] == s.pc[k := Sending];
  }

  lemma SendsAndMarks(s: State, k: string)
    requires k in s.rows && k !in s.pc
    ensures Next(Next(s.(pc := s.pc[k := Sending]), Send(k, false)), Mark(k))
         == s.(rows := s.rows[k := s.rows[k].(sent := true)], delivered := s.delivered + {k})
  {
    assert s.pc[k := Sending][k := Mailed] == s.pc[k := Mailed];
    assert s.pc[k := Mailed] - {k} == s.pc;
  }

  /** An attempt that is claimed, counted and sent. */
  function CountThenSend(k: string, user: string): seq<Step> {
    [Claim(k, Some(user)), Count(k)] + [Send(k, false), Mark(k)]
  }

  lemma CountedIsSent(s: State, k: string, user: string)
    requires k !in s.rows && k !in s.pc
    requires |SinceDay(s.rows[k := Row(Some(user), s.today, false)], user, s.today)| <= DAILY_EMAIL_CAP
    ensures After(s, CountThenSend(k, user))
         == s.(rows := s.rows[k := Row(Some(user), s.today, true)], delivered := s.delivered + {k})
  {
    hide Next, Fold, SinceDay;
    var s1 := s.(rows := s.rows[k := Row(Some(user), s.today, false)]);
    FoldSplit(Next, s, [Claim(k, Some(user)), Count(k)], [Send(k, false), Mark(k)]);
    FoldTwo(Next, s, Claim(k, Some(user)), Count(k));
    Claims(s, k, user);
    Counts(s1, k, user);
    FoldTwo(Next, s1.(pc := s.pc[k := Sending]), Send(k, false), Mark(k));
    SendsAndMarks(s1, k);
  }

  lemma Counts(s: State, k: string, user: string)
    requires k in s.rows && s.rows[k] == Row(Some(user), s.today, false)
    requires |SinceDay(s.rows, user, s.today)| <= DAILY_EMAIL_CAP
    ensures Next(s.(pc := s.pc[k := Claimed]), Count(k)) == s.(pc := s.pc[k := Sending])
  {
    hide SinceDay;
    assert s.pc[k := Claimed][k := Sending] == s.pc[k := Sending];
    assert s.unchecked + {} == s.unchecked;
  }

  /** One attempt per key: counted while the cap lasts, dying before the count and retried after that. */
  function Flood(keys: seq<string>, user: string): seq<Step> {
    if keys == [] then []
    else
      var n := |keys| - 1;
      Flood(keys[..n], user) + if n < DAILY_EMAIL_CAP then CountThenSend(keys[n], user) else DieThenRetry(keys[n], user)
  }

  predicate Distinct(keys: seq<string>) {
    forall i, j :: 0 <= i < j < |keys| ==> keys[i] != keys[j]
  }

  function Elements(keys: seq<string>): set<string> {
    set k | k in keys
  }

  lemma {:induction false} DistinctCount(keys: seq<string>)
    requires Distinct(keys)
    ensures |Elements(keys)| == |keys|
    decreases |keys|
  {
    if keys != [] {
      var n := |keys| - 1;
      DistinctCount(keys[..n]);
      assert Elements(keys) == Elements(keys[..n]) + {keys[n]};
    }
  }

  function Nothing(today: int): State {
    State(today, map[], map[], {}, {})
  }

  /** The state after the flood: everything sent, and uncounted all but the first twenty. */
  function Flooded(today: int, keys: seq<string>, user: string): State {
    State(today, map k | k in keys :: Row(Some(user), today, true), map[], Elements(keys),
          if |keys| <= DAILY_EMAIL_CAP then {} else Elements(keys[DAILY_EMAIL_CAP..]))
  }

  lemma {:induction false} FloodSends(today: int, keys: seq<string>, user: string)
    requires Distinct(keys)
    ensures After(Nothing(today), Flood(keys, user)) == Flooded(today, keys, user)
    decreases |keys|
  {
    hide Next, CountThenSend, DieThenRetry;
    if keys != [] {
      var n := |keys| - 1;
      var k, before := keys[n], Flooded(today, keys[..n], user);
      FloodSends(today, keys[..n], user);
      FoldSplit(Next, Nothing(today), Flood(keys[..n], user),
                if n < DAILY_EMAIL_CAP then CountThenSend(k, user) else DieThenRetry(k, user));
      assert k !in before.rows;
      FloodGrows(today, keys, user);
      if n < DAILY_EMAIL_CAP {
        RowsSoFar(today, keys, user);
        CountedIsSent(before, k, user);
      } else {
        RetrySkipsCount(before, k, user);
      }
    }
  }

  /** How the flooded state grows by its last key. */
  lemma FloodGrows(today: int, keys: seq<string>, user: string)
    requires Distinct(keys) && keys != []
    ensures var n := |keys| - 1;
            var before, k := Flooded(today, keys[..n], user), keys[n];
            Flooded(today, keys, user)
            == before.(rows := before.rows[k := Row(Some(user), today, true)], delivered := before.delivered + {k},
                       unchecked := before.unchecked + if n < DAILY_EMAIL_CAP then {} else {k})
  {
    var n := |keys| - 1;
    assert keys == keys[..n] + [keys[n]];
    if n >= DAILY_EMAIL_CAP {
      assert keys[DAILY_EMAIL_CAP..] == keys[..n][DAILY_EMAIL_CAP..] + [keys[n]];
    }
  }

  lemma RowsSoFar(today: int, keys: seq<string>, user: string)
    requires Distinct(keys) && keys != []
    ensures var n := |keys| - 1;
            var rows := Flooded(today, keys[..n], user).rows[keys[n] := Row(Some(user), today, false)];
            |SinceDay(rows, user, today)| == |keys|
  {
    var n := |keys| - 1;
    var rows := Flooded(today, keys[..n], user).rows[keys[n] := Row(Some(user), today, false)];
    assert keys == keys[..n] + [keys[n]];
    assert SinceDay(rows, user, today) == Elements(keys);
    DistinctCount(keys);
  }

  /** The bound of SentWithinCap is reached: for any number of uncounted claims, exactly that many over the cap are sent. */
  lemma UncountedAddUp(today: int, keys: seq<string>, user: string)
    requires Distinct(keys) && |keys| >= DAILY_EMAIL_CAP
    ensures var t := After(Nothing(today), Flood(keys, user));
            && |SentOf(t, user, today)| == |keys|
            && |UncheckedOf(t, user, today)| == |keys| - DAILY_EMAIL_CAP
  {
    hide Next, Flood;
    FloodSends(today, keys, user);
    var t := Flooded(today, keys, user);
    DistinctCount(keys);
    DistinctCount(keys[DAILY_EMAIL_CAP..]);
    assert SentOf(t, user, today) == Elements(keys);
    if |keys| == DAILY_EMAIL_CAP {
      assert keys[DAILY_EMAIL_CAP..] == [];
    }
    assert UncheckedOf(t, user, today) == Elements(keys[DAILY_EMAIL_CAP..]);
  }

  /** Keys of every length. */
  function Keys(n: nat): seq<string> {
    seq(n, i requires 0 <= i < n => seq(i, j => 'k'))
  }

  lemma KeysDistinct(n: nat)
    ensures |Keys(n)| == n && Distinct(Keys(n))
  {
    forall i, j | 0 <= i < j < n ensures Keys(n)[i] != Keys(n)[j] {
      assert |Keys(n)[i]| == i && |Keys(n)[j]| == j;
    }
  }

  /** Runs with `n` claims of the user's day left uncounted are sure to keep the cap if and only if `n` is zero. */
  lemma CapIffAllCounted(today: int, user: string, n: nat)
    ensures (forall steps ::
               |UncheckedOf(After(Nothing(today), steps), user, today)| == n ==>
                 |SentOf(After(Nothing(today), steps), user, today)| <= DAILY_EMAIL_CAP)
       <==> n == 0
  {
    hide Next, Fold, Flood, Keys, Distinct;
    if n == 0 {
      NothingInv(today);
      forall steps | |UncheckedOf(After(Nothing(today), steps), user, today)| == 0
        ensures |SentOf(After(Nothing(today), steps), user, today)| <= DAILY_EMAIL_CAP
      {
        SentWithinCap(Nothing(today), steps, user, today);
      }
    } else {
      KeysDistinct(DAILY_EMAIL_CAP + n);
      var steps := Flood(Keys(DAILY_EMAIL_CAP + n), user);
      UncountedAddUp(today, Keys(DAILY_EMAIL_CAP + n), user);
      assert |UncheckedOf(After(Nothing(today), steps), user, today)| == n;
      assert |SentOf(After(Nothing(today), steps), user, today)| > DAILY_EMAIL_CAP;
    }
  }

  lemma NothingInv(today: int)
    ensures Inv(Nothing(today))
  {
    forall user, day ensures |Admitted(Nothing(today), user, day)| <= DAILY_EMAIL_CAP {
      assert Admitted(Nothing(today), user, day) == {};
    }
  }

  // -------------------------------------------------------------- the handle

  datatype Outcome = Sent | SkippedDuplicate | SkippedCapped | SkippedSuppressed | Threw

  /** What one whole attempt does to the rows when no other attempt interferes. */
  function Deliver(s: State, k: string, user: Option<string>, suppressed: bool, fails: bool): (Outcome, State) {
    if suppressed then
      (SkippedSuppressed, s)
    else
      var s1 := Next(s, Claim(k, user));
      var s2 := if k in s.rows then Next(s1, Look(k)) else Next(s1, Count(k));
      if k !in s2.pc then (SkippedDuplicate, s2)
      else if s2.pc[k] == Capped then (SkippedCapped, Next(s2, Unclaim(k)))
      else
        var s3 := Next(s2, Send(k, fails));
        if fails then (Threw, s3) else (Sent, Next(s3, Mark(k)))
  }

  /** A suppressed address: nothing is claimed, and nothing sent. */
  lemma SuppressedIsSkipped(s: State, k: string, user: Option<string>, fails: bool)
    ensures Deliver(s, k, user, true, fails) == (SkippedSuppressed, s)
  {
  }

  /** The rows an attempt works on once its claim is in. */
  function ClaimedRows(s: State, k: string, user: Option<string>): map<string, Row> {
    if k in s.rows then s.rows else s.rows[k := Row(user, s.today, false)]
  }

  /** The same attempt without the steps, when no attempt is in progress. */
  lemma DeliverAlone(s: State, k: string, user: Option<string>, fails: bool)
    requires s.pc == map[]
    ensures Deliver(s, k, user, false, fails)
         == if k in s.rows && s.rows[k].sent then (SkippedDuplicate, s)
            else if k !in s.rows && user.Some?
                    && |SinceDay(ClaimedRows(s, k, user), user.value, s.today)| > DAILY_EMAIL_CAP
            then (SkippedCapped, s)
            else if fails then (Threw, s.(rows := ClaimedRows(s, k, user)))
            else (Sent, s.(rows := ClaimedRows(s, k, user)[k := ClaimedRows(s, k, user)[k].(sent := true)],
                           delivered := s.delivered + {k}))
  {
    hide SinceDay;
    var rows := ClaimedRows(s, k, user);
    var s1 := s.(rows := rows, pc := map[k := if k in s.rows then Conflicted else Claimed]);
    assert Next(s, Claim(k, user)) == s1;
    var s2 := s.(rows := rows, pc := map[k := Sending]);
    if k in s.rows {
      if s.rows[k].sent {
        assert s1.pc - {k} == map[];
      } else {
        assert Next(s1, Look(k)) == s2;
        SendAlone(s, k, rows, fails);
      }
    } else if user.Some? && |SinceDay(rows, user.value, s.today)| > DAILY_EMAIL_CAP {
      var s3 := s.(rows := rows, pc := map[k := Capped]);
      assert Next(s1, Count(k)) == s3;
      assert s3.pc - {k} == map[] && rows - {k} == s.rows;
    } else {
      assert s1.pc[k := Sending] == s2.pc && s.unchecked + {} == s.unchecked;
      assert Next(s1, Count(k)) == s2;
      SendAlone(s, k, rows, fails);
    }
  }

  /** The user's rows of the day, this job's own included. */
  function RowsToday(s: State, user: string, own: string): set<string> {
    {own} + set k | k in s.rows && s.rows[k].user == Some(user) && s.rows[k].day >= s.today
  }

  /**
   What a lone attempt answers, from the rows alone: a job marked sent is a duplicate, a
   new one over twenty of its user's day is capped and leaves nothing, and every other one
   is sent and marked unless the mailer throws.
   */
  lemma DeliveredIff(s: State, k: string, user: Option<string>, fails: bool)
    requires s.pc == map[]
    ensures var (outcome, s') := Deliver(s, k, user, false, fails);
            var capped := k !in s.rows && user.Some? && |RowsToday(s, user.value, k)| > 20;
            && (outcome == SkippedDuplicate <==> k in s.rows && s.rows[k].sent)
            && (outcome == SkippedCapped <==> capped)
            && (outcome == Threw <==> !(k in s.rows && s.rows[k].sent) && !capped && fails)
            && (outcome == Sent <==> !(k in s.rows && s.rows[k].sent) && !capped && !fails)
            && (outcome in {SkippedDuplicate, SkippedCapped} ==> s' == s)
            && (outcome in {Sent, Threw} ==>
                  && s'.rows.Keys == s.rows.Keys + {k} && (forall j :: j in s.rows && j != k ==> s'.rows[j] == s.rows[j])
                  && s'.rows[k] == Row(if k in s.rows then s.rows[k].user else user,
                                       if k in s.rows then s.rows[k].day else s.today, outcome == Sent)
                  && s'.delivered == s.delivered + if outcome == Sent then {k} else {})
  {
    hide Deliver, SinceDay, RowsToday, ClaimedRows;
    DeliverAlone(s, k, user, fails);
    ClaimedFacts(s, k, user);
    if user.Some? && k !in s.rows {
      SameRows(s, k, user.value);
    }
  }

  lemma ClaimedFacts(s: State, k: string, user: Option<string>)
    ensures var rows := ClaimedRows(s, k, user);
            && k in rows && rows.Keys == s.rows.Keys + {k} && (forall j :: j in s.rows && j != k ==> rows[j] == s.rows[j])
            && rows[k] == if k in s.rows then s.rows[k] else Row(user, s.today, false)
  {
  }

  lemma SameRows(s: State, k: string, user: string)
    requires k !in s.rows
    ensures SinceDay(ClaimedRows(s, k, Some(user)), user, s.today) == RowsToday(s, user, k)
  {
  }

  lemma SendAlone(s: State, k: string, rows: map<string, Row>, fails: bool)
    requires s.pc == map[] && k in rows
    ensures var s3 := Next(s.(rows := rows, pc := map[k := Sending]), Send(k, fails));
            if fails then s3 == s.(rows := rows)
            else Next(s3, Mark(k)) == s.(rows := rows[k := rows[k].(sent := true)], delivered := s.delivered + {k})
  {
  }

  class Dispatcher {
    var today: int
    var rows: map<string, Row>
    var suppressed: set<string>
    ghost var delivered: set<string>
    ghost var unchecked: set<string>

    ghost function Contents(): State
      reads this
    {
      State(today, rows, map[], delivered, unchecked)
    }

    constructor (today: int, suppressed: set<string>)
      ensures Contents() == State(today, map[], map[], {}, {}) && this.suppressed == suppressed
    {
      this.today, this.suppressed, rows := today, suppressed, map[];
      delivered, unchecked := {}, {};
    }

    /** One attempt, alone; `fails` says whether the mailer throws. */
    method DeliverEmail(k: string, user: Option<string>, recipient: string, fails: bool) returns (outcome: Outcome)
      modifies `rows, `delivered
      ensures (outcome, Contents()) == Deliver(old(Contents()), k, user, recipient in suppressed, fails)
    {
      if recipient in suppressed {
        return SkippedSuppressed;
      }
      ghost var before := rows;
      DeliverAlone(Contents(), k, user, fails);
      if k !in rows {
        rows := rows[k := Row(user, today, false)];
        if user.Some? {
          var count := |SinceDay(rows, user.value, today)|;
          if count > DAILY_EMAIL_CAP {
            rows := rows - {k};
            assert rows == before;
            return SkippedCapped;
          }
        }
      } else {
        if rows[k].sent {
          return SkippedDuplicate;
        }
      }
      if fails {
        return Threw;
      }
      delivered := delivered + {k};
      rows := rows[k := rows[k].(sent := true)];
      outcome := Sent;
    }
  }
}
