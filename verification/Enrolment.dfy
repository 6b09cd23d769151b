/**
 What enrolling, re-enrolling and turning off do to the second factor when requests
 overlap: when an accepted time step can be accepted again, what can switch the
 factor off, and which secret an enrolment switches on.
 */
module Enrolment {
  import opened Prelude
  import C = Credentials
  import opened Mfa

  // --------------------------------------------------- counting confirmations

  /** The step is a confirmation of `u`'s enrolment that goes through. */
  predicate TakesEffect(s: State, step: Step, u: string) {
    && step.Confirm? && step.req in s.requests && s.requests[step.req].Confirming? && s.requests[step.req].user == u
    && step.valid && u in s.users && |step.batch| == RECOVERY_CODE_COUNT && step.batch !! s.made
  }

  /** How many confirmations of `u` go through along a run. */
  function Confirmations(s: State, steps: seq<Step>, u: string): nat
    decreases |steps|
  {
    if steps == [] then 0
    else
      var n := |steps| - 1;
      Confirmations(s, steps[..n], u) + if TakesEffect(Run(s, steps[..n]), steps[n], u) then 1 else 0
  }

  /** What one step does to a user's last step and to the log of accepted steps. */
  predicate Affects(s: State, step: Step, s': State, u: string)
    requires u in s.users
  {
    && u in s'.users
    && s'.users[u].epoch == s.users[u].epoch + (if TakesEffect(s, step, u) then 1 else 0)
    && (s'.accepted == s.accepted || s'.accepted == s.accepted + [Added(s, step)])
    && (s'.accepted != s.accepted && Added(s, step).user == u ==>
          && Added(s, step).epoch == s.users[u].epoch && Newer(s.users[u].lastStep, Added(s, step).step)
          && s'.users[u].lastStep == Some(Added(s, step).step))
    && (s'.accepted == s.accepted || Added(s, step).user != u ==>
          s'.users[u].lastStep == if TakesEffect(s, step, u) then None else s.users[u].lastStep)
  }

  lemma StepEffect(s: State, step: Step, u: string)
    requires u in s.users
    ensures Affects(s, step, Next(s, step), u)
  {
    hide Affects, Begin, Continue;
    if Begins(step) {
      BeginEffect(s, step, u);
    } else if step.Advance? {
      AdvanceEffect(s, step, u);
    } else {
      OtherEffect(s, step, u);
    }
  }

  lemma BeginEffect(s: State, step: Step, u: string)
    requires u in s.users && Begins(step)
    ensures Affects(s, step, Begin(s, step), u)
  {
    hide C.ChallengeLive, Added;
  }

  lemma AdvanceEffect(s: State, step: Step, u: string)
    requires u in s.users && step.Advance?
    ensures Affects(s, step, Continue(s, step), u)
  {
  }

  lemma OtherEffect(s: State, step: Step, u: string)
    requires u in s.users && !Begins(step) && !step.Advance?
    ensures Affects(s, step, Continue(s, step), u)
  {
    hide Identify, Change, Added;
    if step.req in s.requests {
      if Identifies(step) {
        QuietIdentify(s, step, s.requests[step.req]);
      } else {
        ChangeEffect(s, step, u);
      }
    }
  }

  /** Only an accepted step touches the users among the checks of a factor. */
  lemma QuietIdentify(s: State, step: Step, r: Request)
    requires !step.Advance?
    ensures Identify(s, step, r).users == s.users && Identify(s, step, r).accepted == s.accepted
  {
    hide SixDigits;
  }

  lemma ChangeEffect(s: State, step: Step, u: string)
    requires u in s.users && step.req in s.requests && !Begins(step) && !Identifies(step)
    ensures Affects(s, step, Change(s, step, s.requests[step.req]), u)
  {
    hide WithoutCodes, FreshCodes, Added;
  }

  /** The entry an accepted step adds to the log. */
  function Added(s: State, step: Step): Accepted {
    if step.Advance? && step.req in s.requests && s.requests[step.req].Loaded? && step.verdict.Some?
       && s.requests[step.req].user in s.users
    then Accepted(s.requests[step.req].user, s.users[s.requests[step.req].user].epoch,
                  s.requests[step.req].secret, step.verdict.value)
    else Accepted("", 0, "", 0)
  }

  /** A user's enrolment number counts the confirmations that went through. */
  lemma {:induction false} EpochCounts(s: State, steps: seq<Step>, u: string)
    requires u in s.users
    ensures u in Run(s, steps).users
    ensures Run(s, steps).users[u].epoch == s.users[u].epoch + Confirmations(s, steps, u)
    decreases |steps|
  {
    hide Next, TakesEffect;
    if steps != [] {
      var n := |steps| - 1;
      EpochCounts(s, steps[..n], u);
      StepEffect(Run(s, steps[..n]), steps[n], u);
    }
  }

  /** After an enrolment, the stored last step is the last one accepted under it. */
  ghost predicate LastIsAccepted(s: State) {
    forall u :: u in s.users && s.users[u].epoch > 0 && s.users[u].lastStep.Some? ==>
      exists i :: 0 <= i < |s.accepted| && s.accepted[i].user == u && s.accepted[i].epoch == s.users[u].epoch
                  && s.accepted[i].step == s.users[u].lastStep.value
  }

  lemma NextKeepsLast(s: State, step: Step)
    requires LastIsAccepted(s)
    ensures LastIsAccepted(Next(s, step))
  {
    hide Next, TakesEffect, Added;
    var s' := Next(s, step);
    SameUsers(s, step);
    forall u | u in s'.users && s'.users[u].epoch > 0 && s'.users[u].lastStep.Some?
      ensures exists i :: 0 <= i < |s'.accepted| && s'.accepted[i].user == u && s'.accepted[i].epoch == s'.users[u].epoch
                          && s'.accepted[i].step == s'.users[u].lastStep.value
    {
      StepEffect(s, step, u);
      if s'.accepted != s.accepted && Added(s, step).user == u {
        EffectsExclude(s, step, u);
        assert s'.accepted[|s.accepted|] == Added(s, step);
      } else {
        var i :| 0 <= i < |s.accepted| && s.accepted[i].user == u && s.accepted[i].epoch == s.users[u].epoch
                 && s.accepted[i].step == s.users[u].lastStep.value;
        assert s'.accepted[i] == s.accepted[i];
      }
    }
  }

  lemma SameUsers(s: State, step: Step)
    ensures Next(s, step).users.Keys == s.users.Keys
  {
    hide Begin, Continue;
    if Begins(step) {
      BeginKeepsUsers(s, step);
    } else {
      ContinueKeepsKeys(s, step);
    }
  }

  lemma ContinueKeepsKeys(s: State, step: Step)
    ensures Continue(s, step).users.Keys == s.users.Keys
  {
    hide Identify, Change;
    if step.req in s.requests {
      IdentifyKeepsKeys(s, step, s.requests[step.req]);
      ChangeKeepsKeys(s, step, s.requests[step.req]);
    }
  }

  lemma IdentifyKeepsKeys(s: State, step: Step, r: Request)
    ensures Identify(s, step, r).users.Keys == s.users.Keys
  {
    hide SixDigits, Newer;
  }

  lemma ChangeKeepsKeys(s: State, step: Step, r: Request)
    ensures Change(s, step, r).users.Keys == s.users.Keys
  {
    hide WithoutCodes, FreshCodes;
  }

  /** No step both accepts a code and confirms an enrolment. */
  lemma EffectsExclude(s: State, step: Step, u: string)
    ensures Next(s, step).accepted != s.accepted ==> !TakesEffect(s, step, u)
  {
    hide SixDigits, C.ChallengeLive, WithoutCodes, FreshCodes, Newer;
  }

  lemma {:induction false} RunKeepsLast(s: State, steps: seq<Step>)
    requires LastIsAccepted(s)
    ensures LastIsAccepted(Run(s, steps))
    decreases |steps|
  {
    hide Next, LastIsAccepted;
    if steps != [] {
      var n := |steps| - 1;
      RunKeepsLast(s, steps[..n]);
      NextKeepsLast(Run(s, steps[..n]), steps[n]);
    }
  }

  // ------------------------------------------ when a step is accepted again

  /** The enrolment has moved on since `a`, and no step as new as `a`'s was accepted under the current one. */
  predicate Readmits(s: State, a: Accepted) {
    && a.user in s.users && a.epoch < s.users[a.user].epoch
    && forall i :: 0 <= i < |s.accepted| && s.accepted[i].user == a.user
                   && s.accepted[i].epoch == s.users[a.user].epoch ==>
         s.accepted[i].step < a.step
  }

  /** In every reachable state, the guard lets an accepted step through again exactly when the state readmits it. */
  lemma GuardOpensIff(users: map<string, User>, steps: seq<Step>, i: nat)
    requires i < |Run(Initial(users), steps).accepted|
    ensures var s := Run(Initial(users), steps);
            && s.accepted[i].user in s.users
            && (Newer(s.users[s.accepted[i].user].lastStep, s.accepted[i].step) <==> Readmits(s, s.accepted[i]))
  {
    hide Fold;
    RunKeepsInv(Initial(users), steps);
    RunKeepsLast(Initial(users), steps);
    var s := Run(Initial(users), steps);
    var a := s.accepted[i];
    CoveredAt(s, i);
    var row := s.users[a.user];
    if row.lastStep.Some? && row.epoch > 0 {
      var j :| 0 <= j < |s.accepted| && s.accepted[j].user == a.user && s.accepted[j].epoch == row.epoch
               && s.accepted[j].step == row.lastStep.value;
    }
    forall j | 0 <= j < |s.accepted| && s.accepted[j].user == a.user && s.accepted[j].epoch == row.epoch
      ensures row.lastStep.Some? && s.accepted[j].step <= row.lastStep.value
    {
      CoveredAt(s, j);
    }
  }

  lemma CoveredAt(s: State, i: nat)
    requires Inv(s) && i < |s.accepted|
    ensures Covers(s.users, s.accepted[i])
  {
  }

  /** The run accepts `step` for `u` at least once. */
  ghost predicate AcceptsIn(s: State, more: seq<Step>, u: string, step: int) {
    exists j :: |s.accepted| <= j < |Run(s, more).accepted| && Run(s, more).accepted[j].user == u
                && Run(s, more).accepted[j].step == step
  }

  /** Without a confirmation, only steps newer than the last one are accepted. */
  lemma {:induction false} OnlyNewer(s: State, more: seq<Step>, u: string, step: int)
    requires u in s.users && !Newer(s.users[u].lastStep, step) && Confirmations(s, more, u) == 0
    ensures u in Run(s, more).users && !Newer(Run(s, more).users[u].lastStep, step)
    ensures |s.accepted| <= |Run(s, more).accepted|
    ensures !AcceptsIn(s, more, u, step)
    decreases |more|
  {
    hide Next, TakesEffect, Added;
    if more != [] {
      var n := |more| - 1;
      OnlyNewer(s, more[..n], u, step);
      var t := Run(s, more[..n]);
      StepEffect(t, more[n], u);
      assert forall j :: |s.accepted| <= j < |t.accepted| ==> !(t.accepted[j].user == u && t.accepted[j].step == step);
    }
  }

  /**
   Over every interleaved run: once a step was accepted for a user, it can be accepted
   again before the next confirmation if and only if a confirmation of that user has
   gone through since, and no step as new was accepted after it. The user has MFA on,
   and `p`, `q` and `ch` are new.
   */
  lemma AcceptedAgainIff(users: map<string, User>, steps: seq<Step>, i: nat, p: nat, q: nat, ch: string)
    requires var s := Run(Initial(users), steps);
             && i < |s.accepted| && s.accepted[i].user in s.users
             && s.users[s.accepted[i].user].enabled && s.users[s.accepted[i].user].secret.Some?
             && p !in s.requests && q !in s.requests && p != q && ch !in s.challenges
    ensures var s := Run(Initial(users), steps);
            var a := s.accepted[i];
            (exists more :: Confirmations(s, more, a.user) == 0 && AcceptsIn(s, more, a.user, a.step)) <==> Readmits(s, a)
  {
    hide Fold, Next, Confirmations, SixDigits, Readmits;
    var s := Run(Initial(users), steps);
    var a := s.accepted[i];
    GuardOpensIff(users, steps, i);
    if Newer(s.users[a.user].lastStep, a.step) {
      Zeros();
      var again := SignInSteps(p, q, a.user, ch, "000000", 0, Some(a.step));
      SignsIn(s, p, q, a.user, ch, "000000", 0, a.step);
      assert Run(s, again).accepted[|s.accepted|].step == a.step;
      assert AcceptsIn(s, again, a.user, a.step);
      EpochCounts(s, again, a.user);
    } else {
      forall more | Confirmations(s, more, a.user) == 0 ensures !AcceptsIn(s, more, a.user, a.step) {
        OnlyNewer(s, more, a.user, a.step);
      }
    }
  }

  lemma Zeros()
    ensures SixDigits("000000")
  {
  }

  /** So between two acceptances of one step for one user, a confirmation of that user went through. */
  lemma RepeatNeedsConfirmation(users: map<string, User>, steps: seq<Step>, i: nat, more: seq<Step>)
    requires i < |Run(Initial(users), steps).accepted|
    ensures var s := Run(Initial(users), steps);
            var a := s.accepted[i];
            a.user in s.users && (AcceptsIn(s, more, a.user, a.step) ==>
                                    Confirmations(s, more, a.user) > 0 || a.epoch < s.users[a.user].epoch)
  {
    hide Fold, Next, Confirmations, AcceptsIn;
    var s := Run(Initial(users), steps);
    GuardOpensIff(users, steps, i);
    if !Newer(s.users[s.accepted[i].user].lastStep, s.accepted[i].step)
       && Confirmations(s, more, s.accepted[i].user) == 0 {
      OnlyNewer(s, more, s.accepted[i].user, s.accepted[i].step);
    }
  }

  /** Two overlapping enrolments of one staged secret, with a login after each confirmation. */
  function OverlappingEnrolments(u: string, code: string, now: int, step: int, first: set<string>, second: set<string>):
    seq<Step>
  {
    [BeginEnable(0, u), LoadStaged(0), BeginEnable(1, u), LoadStaged(1), Confirm(0, true, first)]
    + (SignInSteps(2, 3, u, "a", code, now, Some(step))
       + ([Confirm(1, true, second)] + SignInSteps(4, 5, u, "b", code, now, Some(step))))
  }

  /**
   With one and the same secret: the second of two overlapping confirmations clears
   the last step, and the same step of that secret signs in again.
   */
  lemma OverlapReadmitsStep(u: string, secret: string, code: string, now: int, step: int,
                            first: set<string>, second: set<string>)
    requires SixDigits(code) && first !! second && |first| == RECOVERY_CODE_COUNT && |second| == RECOVERY_CODE_COUNT
    ensures Run(Initial(map[u := User(Some(secret), false, None, 0)]),
                OverlappingEnrolments(u, code, now, step, first, second)).accepted
         == [Accepted(u, 1, secret, step), Accepted(u, 2, secret, step)]
  {
    hide SixDigits, WithoutCodes, FreshCodes, SignInSteps, Fold;
    var s := Initial(map[u := User(Some(secret), false, None, 0)]);
    var both := [BeginEnable(0, u), LoadStaged(0), BeginEnable(1, u), LoadStaged(1), Confirm(0, true, first)];
    var login1 := SignInSteps(2, 3, u, "a", code, now, Some(step));
    var login2 := SignInSteps(4, 5, u, "b", code, now, Some(step));
    var again := [Confirm(1, true, second)];
    FoldSplit(Next, s, both, login1 + (again + login2));
    BothHold(u, secret, first);
    var s1 := Run(s, both);
    FoldSplit(Next, s1, login1, again + login2);
    SignsIn(s1, 2, 3, u, "a", code, now, step);
    var s2 := Run(s1, login1);
    FoldSplit(Next, s2, again, login2);
    var s3 := Run(s2, again);
    ConfirmsAgain(s2, 1, u, second);
    SignsIn(s3, 4, 5, u, "b", code, now, step);
  }

  lemma BothHold(u: string, secret: string, first: set<string>)
    requires |first| == RECOVERY_CODE_COUNT
    ensures var s1 := Run(Initial(map[u := User(Some(secret), false, None, 0)]),
                          [BeginEnable(0, u), LoadStaged(0), BeginEnable(1, u), LoadStaged(1), Confirm(0, true, first)]);
            && s1.users == map[u := User(Some(secret), true, None, 1)]
            && s1.requests == map[0 := Enrolled(u), 1 := Confirming(u, secret)]
            && s1.made == first && s1.accepted == [] && s1.challenges == map[]
  {
    hide WithoutCodes, FreshCodes, Next, Fold;
    var user := User(Some(secret), false, None, 0);
    var s := Initial(map[u := user]);
    FoldFive(Next, s, BeginEnable(0, u), LoadStaged(0), BeginEnable(1, u), LoadStaged(1), Confirm(0, true, first));
    EnableBegins(s, 0, u);
    var t1 := s.(requests := map[0 := MayEnable(u)]);
    StagedLoads(t1, 0, u);
    var t2 := s.(requests := map[0 := Confirming(u, secret)]);
    EnableBegins(t2, 1, u);
    var t3 := s.(requests := map[0 := Confirming(u, secret), 1 := MayEnable(u)]);
    StagedLoads(t3, 1, u);
    var t4 := s.(requests := map[0 := Confirming(u, secret), 1 := Confirming(u, secret)]);
    Confirms(t4, 0, u, first);
    assert t1 == Put(s, 0, MayEnable(u));
    assert t2 == Put(t1, 0, Confirming(u, secret));
    assert t3 == Put(t2, 1, MayEnable(u));
    assert t4 == Put(t3, 1, Confirming(u, secret));
    assert t4.made + first == first;
  }

  /** A confirmation that loaded its secret earlier starts a new enrolment. */
  lemma ConfirmsAgain(s: State, req: nat, u: string, batch: set<string>)
    requires req in s.requests && s.requests[req].Confirming? && s.requests[req].user == u && u in s.users
    requires |batch| == RECOVERY_CODE_COUNT && batch !! s.made
    ensures var s' := Run(s, [Confirm(req, true, batch)]);
            && s'.users == s.users[u := s.users[u].(enabled := true, lastStep := None, epoch := s.users[u].epoch + 1)]
            && s'.requests == s.requests[req := Enrolled(u)]
            && s'.challenges == s.challenges && s'.accepted == s.accepted
  {
    hide Next, WithoutCodes, FreshCodes;
    Confirms(s, req, u, batch);
    FoldOne(Next, s, Confirm(req, true, batch));
  }

  // --------------------------------------- what switches the factor on and off

  /** At one step, the factor of a user goes off by a proved request or by a set-up that is staged. */
  lemma TurnsOffIff(s: State, step: Step, u: string)
    requires u in s.users && s.users[u].enabled
    ensures u in Next(s, step).users
    ensures !Next(s, step).users[u].enabled <==> ProvedAway(s, step, u) || StagedAway(s, step, u)
  {
    hide Begin, Continue;
    if Begins(step) {
      BeginKeepsUsers(s, step);
    } else if step.Finish? || step.Stage? {
      OffStep(s, step, u);
    } else {
      OnStep(s, step, u);
    }
  }

  predicate ProvedAway(s: State, step: Step, u: string) {
    step.Finish? && step.req in s.requests && ProvedFor(s.requests[step.req], u, TurnOff)
  }

  predicate StagedAway(s: State, step: Step, u: string) {
    step.Stage? && step.req in s.requests && s.requests[step.req] == MayStage(u)
  }

  lemma BeginKeepsUsers(s: State, step: Step)
    ensures Begins(step) ==> Begin(s, step).users == s.users
  {
    hide C.ChallengeLive;
  }

  lemma OffStep(s: State, step: Step, u: string)
    requires u in s.users && s.users[u].enabled && (step.Finish? || step.Stage?)
    ensures u in Continue(s, step).users
    ensures !Continue(s, step).users[u].enabled <==> ProvedAway(s, step, u) || StagedAway(s, step, u)
  {
    hide WithoutCodes;
  }

  lemma OnStep(s: State, step: Step, u: string)
    requires u in s.users && s.users[u].enabled && !step.Finish? && !step.Stage?
    ensures u in Continue(s, step).users && Continue(s, step).users[u].enabled
  {
    hide SixDigits, WithoutCodes, FreshCodes, Newer;
  }

  /** The factor goes on by a confirmation that takes effect, and by nothing else. */
  lemma TurnsOnIff(s: State, step: Step, u: string)
    requires u in s.users && !s.users[u].enabled
    ensures u in Next(s, step).users
    ensures Next(s, step).users[u].enabled <==> TakesEffect(s, step, u)
  {
    hide Begin, Continue, TakesEffect;
    if Begins(step) {
      BeginKeepsUsers(s, step);
      NoBeginConfirms(s, step, u);
    } else {
      ContinueTurnsOn(s, step, u);
    }
  }

  lemma NoBeginConfirms(s: State, step: Step, u: string)
    ensures Begins(step) ==> !TakesEffect(s, step, u)
  {
  }

  lemma ContinueTurnsOn(s: State, step: Step, u: string)
    requires u in s.users && !s.users[u].enabled && !Begins(step)
    ensures u in Continue(s, step).users
    ensures Continue(s, step).users[u].enabled <==> TakesEffect(s, step, u)
  {
    hide Identify, WithoutCodes, FreshCodes;
    if step.req in s.requests && Identifies(step) {
      IdentifyKeepsEnabled(s, step, s.requests[step.req], u);
    }
  }

  lemma IdentifyKeepsEnabled(s: State, step: Step, r: Request, u: string)
    requires u in s.users
    ensures u in Identify(s, step, r).users && Identify(s, step, r).users[u].enabled == s.users[u].enabled
  {
    hide SixDigits, Newer;
  }

  /** A set-up is let through only while the user's factor is off. */
  lemma SetupSawItOff(s: State, step: Step, q: nat, u: string)
    requires q in Next(s, step).requests && Next(s, step).requests[q] == MayStage(u)
    requires !(q in s.requests && s.requests[q] == MayStage(u))
    ensures u in s.users && !s.users[u].enabled && Next(s, step).users == s.users
  {
    hide Continue, C.ChallengeLive;
    if !Begins(step) {
      OnlyBeginSetsUp(s, step, q, u);
    }
  }

  lemma OnlyBeginSetsUp(s: State, step: Step, q: nat, u: string)
    requires q in Continue(s, step).requests && Continue(s, step).requests[q] == MayStage(u)
    ensures q in s.requests && s.requests[q] == MayStage(u)
  {
    hide Identify, Change;
    OwnRequestOnly(s, step);
    if step.req == q && q in s.requests {
      if Identifies(step) {
        IdentifyNeverSetsUp(s, step, s.requests[q]);
      } else {
        ChangeNeverSetsUp(s, step, s.requests[q]);
      }
    }
  }

  lemma IdentifyNeverSetsUp(s: State, step: Step, r: Request)
    ensures var t := Identify(s, step, r);
            t.requests == s.requests || (step.req in t.requests && !t.requests[step.req].MayStage?)
  {
    hide Newer, SixDigits;
    match step {
      case Answer(_, _, _) =>
      case Load(_) =>
      case Advance(_, _) =>
      case Recover(_) =>
      case _ =>
    }
  }

  lemma ChangeNeverSetsUp(s: State, step: Step, r: Request)
    ensures var t := Change(s, step, r);
            t.requests == s.requests || (step.req in t.requests && !t.requests[step.req].MayStage?)
  {
    hide WithoutCodes, FreshCodes;
  }

  /** Step `n` confirms `u`, with the set-up `q` of `u` already let through, and no later step of the run confirms `u`. */
  ghost predicate LastConfirmedPast(s0: State, steps: seq<Step>, n: int, q: nat, u: string) {
    && 0 <= n < |steps| && TakesEffect(Run(s0, steps[..n]), steps[n], u)
    && q in Run(s0, steps[..n]).requests && Run(s0, steps[..n]).requests[q] == MayStage(u)
    && forall m :: n < m < |steps| ==> !TakesEffect(Run(s0, steps[..m]), steps[m], u)
  }

  /** In every reachable state, a set-up still to be staged while the factor is on is older than the enrolment in force. */
  lemma {:induction false} StaleSetup(users: map<string, User>, steps: seq<Step>, q: nat, u: string)
    requires var s := Run(Initial(users), steps);
             q in s.requests && s.requests[q] == MayStage(u) && u in s.users && s.users[u].enabled
    ensures exists n :: LastConfirmedPast(Initial(users), steps, n, q, u)
    decreases |steps|
  {
    hide Next, TakesEffect, Initial, Run;
    var s0 := Initial(users);
    if steps == [] {
      NoRequestsYet(users);
    } else {
      var k := |steps| - 1;
      var before := steps[..k];
      var t := Run(s0, before);
      RunLast(s0, steps);
      SameUsers(t, steps[k]);
      if !(q in t.requests && t.requests[q] == MayStage(u)) {
        SetupSawItOff(t, steps[k], q, u);
      }
      assert forall m :: 0 <= m < k ==> before[..m] == steps[..m] && before[m] == steps[m];
      if TakesEffect(t, steps[k], u) {
        assert LastConfirmedPast(s0, steps, k, q, u);
      } else {
        if !t.users[u].enabled {
          TurnsOnIff(t, steps[k], u);
        }
        StaleSetup(users, before, q, u);
        var n :| LastConfirmedPast(s0, before, n, q, u);
        assert LastConfirmedPast(s0, steps, n, q, u);
      }
    }
  }

  lemma NoRequestsYet(users: map<string, User>)
    ensures Run(Initial(users), []).requests == map[]
  {
  }

  lemma RunLast(s: State, steps: seq<Step>)
    requires steps != []
    ensures Run(s, steps) == Next(Run(s, steps[..|steps| - 1]), steps[|steps| - 1])
  {
    hide Next;
  }

  /** The request turning the factor off has proved it: an accepted step or a spent code, of the user. */
  predicate FinishesProved(s: State, step: Step, u: string) {
    ProvedAway(s, step, u) && FactorKnown(s, u, s.requests[step.req].factor)
  }

  /** The set-up being staged was let through before the confirmation in force. */
  ghost predicate StagesStale(users: map<string, User>, steps: seq<Step>, step: Step, u: string) {
    StagedAway(Run(Initial(users), steps), step, u)
    && exists n :: LastConfirmedPast(Initial(users), steps, n, step.req, u)
  }

  /**
   Over every interleaved run, the factor of a user goes off at a step if and only if a
   request of theirs with an accepted step or a spent code finishes turning it off, or a
   set-up let through before the confirmation in force is staged.
   */
  lemma FactorGoesOffIff(users: map<string, User>, steps: seq<Step>, step: Step, u: string)
    requires var s := Run(Initial(users), steps);
             u in s.users && s.users[u].enabled
    ensures var s := Run(Initial(users), steps);
            u in Next(s, step).users
            && (!Next(s, step).users[u].enabled <==> FinishesProved(s, step, u) || StagesStale(users, steps, step, u))
  {
    hide Run, Next, Initial, Inv, FactorKnown;
    var s := Run(Initial(users), steps);
    TurnsOffIff(s, step, u);
    if ProvedAway(s, step, u) {
      InitialInv(users);
      RunKeepsInv(Initial(users), steps);
      ProvedIsKnown(s, step.req);
    }
    if StagedAway(s, step, u) {
      StaleSetup(users, steps, step.req, u);
    }
  }

  lemma ProvedIsKnown(s: State, q: nat)
    requires Inv(s) && q in s.requests && s.requests[q].Proved?
    ensures FactorKnown(s, s.requests[q].user, s.requests[q].factor)
  {
    assert FactorOf(s.requests[q]) == Some(s.requests[q].factor);
  }

  /** The code would be accepted for the user. */
  predicate Usable(s: State, u: string, c: string) {
    c in s.codes && s.codes[c].user == u && !s.codes[c].consumed
  }

  /** A confirmation leaves its user exactly the new codes, and turning the factor off leaves none; nobody else's change. */
  lemma CodesReplaced(s: State, step: Step, u: string)
    requires TakesEffect(s, step, u) || (ProvedAway(s, step, u) && u in s.users)
    ensures var s' := Next(s, step);
            && (forall c :: Usable(s', u, c) <==> step.Confirm? && c in step.batch)
            && (forall v, c :: v != u && !(step.Confirm? && c in step.batch) ==> (Usable(s', v, c) <==> Usable(s, v, c)))
  {
  }

  /** A user with a staged secret, before anything else. */
  function WithStaged(u: string, secret: string): State {
    Initial(map[u := User(Some(secret), false, None, 0)])
  }

  /** The second way happens: set-up checked, enrolment confirmed, set-up staged; no factor was ever proved. */
  lemma LateSetupTurnsOff(u: string, secret: string, other: string, batch: set<string>)
    requires |batch| == RECOVERY_CODE_COUNT
    ensures var t := Run(WithStaged(u, secret),
                         [BeginSetup(0, u), BeginEnable(1, u), LoadStaged(1), Confirm(1, true, batch), Stage(0, other)]);
            && t.users == map[u := User(Some(other), false, None, 1)]
            && t.accepted == [] && t.spent == map[]
  {
    hide WithoutCodes, FreshCodes, Next, Fold;
    var s := WithStaged(u, secret);
    FoldFive(Next, s, BeginSetup(0, u), BeginEnable(1, u), LoadStaged(1), Confirm(1, true, batch), Stage(0, other));
    SetupBegins(s, 0, u);
    var t1 := Put(s, 0, MayStage(u));
    EnableBegins(t1, 1, u);
    var t2 := Put(t1, 1, MayEnable(u));
    StagedLoads(t2, 1, u);
    var t3 := Put(t2, 1, Confirming(u, secret));
    assert batch !! t3.made;
    Confirms(t3, 1, u, batch);
    var t4 := Next(t3, Confirm(1, true, batch));
    assert t4.requests[0] == MayStage(u);
    Stages(t4, 0, u, other);
  }

  lemma SetupBegins(s: State, req: nat, u: string)
    requires req !in s.requests && u in s.users && !s.users[u].enabled
    ensures Next(s, BeginSetup(req, u)) == Put(s, req, MayStage(u))
  {
  }

  lemma Stages(s: State, req: nat, u: string, secret: string)
    requires req in s.requests && s.requests[req] == MayStage(u) && u in s.users
    ensures Next(s, Stage(req, secret))
         == Put(SaveUser(s, u, s.users[u].(secret := Some(secret), enabled := false)), req, Staged(u))
  {
  }

  // ------------------------------------------- which secret is switched on

  /** What a step writes to a user's stored secret, if it does: a staged one, or none when the factor is turned off. */
  function Writes(s: State, step: Step, u: string): Option<Option<string>> {
    if StagedAway(s, step, u) then Some(Some(step.secret))
    else if ProvedAway(s, step, u) then Some(None)
    else None
  }

  /** The last thing a run writes to a user's stored secret, if it writes it at all. */
  function LastWritten(s: State, steps: seq<Step>, u: string): Option<Option<string>>
    decreases |steps|
  {
    if steps == [] then None
    else
      var n := |steps| - 1;
      var w := Writes(Run(s, steps[..n]), steps[n], u);
      if w.Some? then w else LastWritten(s, steps[..n], u)
  }

  lemma StepWrites(s: State, step: Step, u: string)
    requires u in s.users
    ensures u in Next(s, step).users
    ensures var w := Writes(s, step, u);
            Next(s, step).users[u].secret == if w.Some? then w.value else s.users[u].secret
  {
    hide Begin, Continue;
    if Begins(step) {
      BeginKeepsUsers(s, step);
    } else {
      ContinueWrites(s, step, u);
    }
  }

  lemma ContinueWrites(s: State, step: Step, u: string)
    requires u in s.users && !Begins(step)
    ensures u in Continue(s, step).users
    ensures var w := Writes(s, step, u);
            Continue(s, step).users[u].secret == if w.Some? then w.value else s.users[u].secret
  {
    hide Identify, WithoutCodes, FreshCodes;
    if step.req in s.requests && Identifies(step) {
      IdentifyKeepsSecret(s, step, s.requests[step.req], u);
    }
  }

  lemma IdentifyKeepsSecret(s: State, step: Step, r: Request, u: string)
    requires u in s.users
    ensures u in Identify(s, step, r).users && Identify(s, step, r).users[u].secret == s.users[u].secret
  {
    hide SixDigits, Newer;
  }

  /** The stored secret is what was last written to it. */
  lemma {:induction false} SecretIsLastWritten(s: State, steps: seq<Step>, u: string)
    requires u in s.users
    ensures u in Run(s, steps).users
    ensures var w := LastWritten(s, steps, u);
            Run(s, steps).users[u].secret == if w.Some? then w.value else s.users[u].secret
    decreases |steps|
  {
    hide Next, Writes;
    if steps != [] {
      var n := |steps| - 1;
      SecretIsLastWritten(s, steps[..n], u);
      StepWrites(Run(s, steps[..n]), steps[n], u);
    }
  }

  lemma ConfirmKeepsSecret(s: State, step: Step, u: string)
    requires TakesEffect(s, step, u)
    ensures var s' := Next(s, step);
            u in s'.users && s'.users[u].enabled && s'.users[u].secret == s.users[u].secret
  {
  }

  /**
   From the load of a secret to a confirmation by a code of it, whatever happens in
   between: the confirmation switches on that very secret if and only if nothing wrote
   the user's secret meanwhile, or the last thing written was the same secret again.
   */
  lemma CheckedSecretEnabledIff(s: State, req: nat, u: string, more: seq<Step>, batch: set<string>)
    requires req in s.requests && s.requests[req] == MayEnable(u) && u in s.users && s.users[u].secret.Some?
    requires TakesEffect(Run(Next(s, LoadStaged(req)), more), Confirm(req, true, batch), u)
    ensures var loaded := Next(s, LoadStaged(req));
            var t := Next(Run(loaded, more), Confirm(req, true, batch));
            && loaded.requests[req] == Confirming(u, s.users[u].secret.value)
            && u in t.users && t.users[u].enabled
            && (t.users[u].secret == s.users[u].secret <==>
                  LastWritten(loaded, more, u) in {None, Some(s.users[u].secret)})
  {
    hide Next, Run, LastWritten, TakesEffect;
    StagedLoads(s, req, u);
    var loaded := Next(s, LoadStaged(req));
    SecretIsLastWritten(loaded, more, u);
    ConfirmKeepsSecret(Run(loaded, more), Confirm(req, true, batch), u);
  }

  /** And it happens: a set-up staged between the load and the confirmation enables a secret no code confirmed. */
  lemma UnconfirmedSecretEnabled(u: string, secret: string, other: string, batch: set<string>)
    requires |batch| == RECOVERY_CODE_COUNT
    ensures var steps := [BeginSetup(0, u), BeginEnable(1, u), LoadStaged(1), Stage(0, other)];
            && Run(WithStaged(u, secret), steps).requests == map[0 := Staged(u), 1 := Confirming(u, secret)]
            && Run(WithStaged(u, secret), steps + [Confirm(1, true, batch)]).users
               == map[u := User(Some(other), true, None, 1)]
  {
    hide WithoutCodes, FreshCodes, Next, Fold;
    var s := WithStaged(u, secret);
    var steps := [BeginSetup(0, u), BeginEnable(1, u), LoadStaged(1), Stage(0, other)];
    assert steps == [BeginSetup(0, u), BeginEnable(1, u)] + [LoadStaged(1), Stage(0, other)];
    FoldSplit(Next, s, [BeginSetup(0, u), BeginEnable(1, u)], [LoadStaged(1), Stage(0, other)]);
    FoldTwo(Next, s, BeginSetup(0, u), BeginEnable(1, u));
    SetupBegins(s, 0, u);
    var t1 := Put(s, 0, MayStage(u));
    EnableBegins(t1, 1, u);
    var t2 := Put(t1, 1, MayEnable(u));
    FoldTwo(Next, t2, LoadStaged(1), Stage(0, other));
    StagedLoads(t2, 1, u);
    var t3 := Put(t2, 1, Confirming(u, secret));
    Stages(t3, 0, u, other);
    var t4 := Run(s, steps);
    FoldSplit(Next, s, steps, [Confirm(1, true, batch)]);
    assert batch !! t4.made;
    ConfirmsAgain(t4, 1, u, batch);
  }
}
