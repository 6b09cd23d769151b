/**
 The second factor: enrolment, TOTP codes, recovery codes, and the two-request
 login they guard. Requests run concurrently; each statement (or transaction) is
 one atomic step. Whether a code matches a secret is the verdict passed to a step.
 */
module Mfa {
  import opened Prelude
  import C = Credentials

  const RECOVERY_CODE_COUNT := 10

  /** `epoch` counts the enrolments, a history the table does not hold. */
  datatype User = User(secret: Option<string>, enabled: bool, lastStep: Option<int>, epoch: nat)

  /** A recovery code, known by its hash. */
  datatype CodeRow = CodeRow(user: string, consumed: bool)

  /** A TOTP time step that advanced the user's last step, the enrolment it did so under, and the secret it was of. */
  datatype Accepted = Accepted(user: string, epoch: nat, secret: string, step: int)

  datatype Factor = Totp(accepted: Accepted) | Recovery(code: string)

  /** What a proved factor is for: the login that consumed a challenge, or turning the factor off. */
  datatype Goal = SignIn(challenge: string) | TurnOff

  datatype Origin = Direct | ViaMfa(challenge: string, factor: Factor)

  /** Where a request stands. */
  datatype Request =
    | Checked(user: string, enabled: bool)
    | Issued(user: string, challenge: string)
    | Presented(user: string, goal: Goal, code: string)
    | Loaded(user: string, goal: Goal, secret: string)
    | Proved(user: string, goal: Goal, factor: Factor)
    | Session(user: string, origin: Origin)
    | TurnedOff(user: string, factor: Factor)
    | MayStage(user: string)
    | Staged(user: string)
    | MayEnable(user: string)
    | Confirming(user: string, secret: string)
    | Enrolled(user: string)
    | Rejected

  /** The tables, the requests, and three histories: accepted steps, codes ever made, codes ever spent and by whom. */
  datatype State = State(users: map<string, User>, codes: map<string, CodeRow>, challenges: map<string, C.Challenge>,
                         requests: map<nat, Request>, accepted: seq<Accepted>, made: set<string>, spent: map<string, string>)

  datatype Step =
    | Login(req: nat, user: string)
    | Answer(req: nat, challenge: string, now: int)
    | Present(req: nat, challenge: string, code: string, now: int)
    | Load(req: nat)
    | Advance(req: nat, verdict: Option<int>)
    | Recover(req: nat)
    | Finish(req: nat)
    | BeginSetup(req: nat, user: string)
    | Stage(req: nat, secret: string)
    | BeginEnable(req: nat, user: string)
    | LoadStaged(req: nat)
    | Confirm(req: nat, valid: bool, batch: set<string>)
    | BeginDisable(req: nat, user: string, code: string)

  predicate SixDigits(code: string) {
    |code| == 6 && forall i :: 0 <= i < 6 ==> '0' <= code[i] <= '9'
  }

  predicate Newer(last: Option<int>, step: int) {
    last.None? || last.value < step
  }

  function WithoutCodes(codes: map<string, CodeRow>, user: string): map<string, CodeRow> {
    map c | c in codes && codes[c].user != user :: codes[c]
  }

  function FreshCodes(batch: set<string>, user: string): map<string, CodeRow> {
    map c | c in batch :: CodeRow(user, false)
  }

  function Put(s: State, req: nat, r: Request): State {
    s.(requests := s.requests[req := r])
  }

  function Begin(s: State, step: Step): State {
    if step.req in s.requests then s
    else
      match step
      case Login(req, u) => if u in s.users then Put(s, req, Checked(u, s.users[u].enabled)) else s
      case Present(req, ch, code, now) =>
        if ch in s.challenges && C.ChallengeLive(s.challenges[ch], now) then
          Put(s.(challenges := s.challenges[ch := s.challenges[ch].(consumed := Some(now))]),
              req, Presented(s.challenges[ch].user, SignIn(ch), code))
        else Put(s, req, Rejected)
      case BeginSetup(req, u) =>
        if u !in s.users then s else Put(s, req, if s.users[u].enabled then Rejected else MayStage(u))
      case BeginEnable(req, u) =>
        if u !in s.users then s else Put(s, req, if s.users[u].enabled then Rejected else MayEnable(u))
      case BeginDisable(req, u, code) =>
        if u !in s.users then s else Put(s, req, if s.users[u].enabled then Presented(u, TurnOff, code) else Rejected)
      case _ => s
  }

  function SaveUser(s: State, u: string, row: User): State {
    s.(users := s.users[u := row])
  }

  /** The step that follows in a request under way; any other step leaves the state alone. */
  function Continue(s: State, step: Step): State {
    if step.req !in s.requests then s
    else if Identifies(step) then Identify(s, step, s.requests[step.req])
    else Change(s, step, s.requests[step.req])
  }

  predicate Identifies(step: Step) {
    step.Answer? || step.Load? || step.Advance? || step.Recover?
  }

  /** Answering a login, and checking a factor. */
  function Identify(s: State, step: Step, r: Request): State {
    match step
    case Answer(req, ch, now) =>
      if !r.Checked? then s
      else if !r.enabled then Put(s, req, Session(r.user, Direct))
      else if ch in s.challenges then s
      else Put(s.(challenges := s.challenges[ch := C.Challenge(r.user, now + C.MFA_CHALLENGE_TTL, None)]),
               req, Issued(r.user, ch))
    case Load(req) =>
      if !r.Presented? || !SixDigits(r.code) || r.user !in s.users then s
      else if s.users[r.user].secret.None? then Put(s, req, Rejected)
      else Put(s, req, Loaded(r.user, r.goal, s.users[r.user].secret.value))
    case Advance(req, verdict) =>
      if !r.Loaded? || r.user !in s.users then s
      else if verdict.None? || !Newer(s.users[r.user].lastStep, verdict.value) then Put(s, req, Rejected)
      else
        var a := Accepted(r.user, s.users[r.user].epoch, r.secret, verdict.value);
        Put(SaveUser(s, r.user, s.users[r.user].(lastStep := verdict)).(accepted := s.accepted + [a]),
            req, Proved(r.user, r.goal, Totp(a)))
    case Recover(req) =>
      if !r.Presented? || SixDigits(r.code) then s
      else if r.code in s.codes && s.codes[r.code] == CodeRow(r.user, false) then
        Put(s.(codes := s.codes[r.code := CodeRow(r.user, true)], spent := s.spent[r.code := r.user]),
            req, Proved(r.user, r.goal, Recovery(r.code)))
      else Put(s, req, Rejected)
    case _ => s
  }

  /** What a proved factor was for, and the steps of an enrolment. */
  function Change(s: State, step: Step, r: Request): State {
    match step
    case Finish(req) =>
      if !r.Proved? then s
      else if r.goal.SignIn? then Put(s, req, Session(r.user, ViaMfa(r.goal.challenge, r.factor)))
      else if r.user !in s.users then s
      else
        Put(SaveUser(s, r.user, s.users[r.user].(secret := None, enabled := false))
            .(codes := WithoutCodes(s.codes, r.user)), req, TurnedOff(r.user, r.factor))
    case Stage(req, secret) =>
      if !r.MayStage? || r.user !in s.users then s
      else Put(SaveUser(s, r.user, s.users[r.user].(secret := Some(secret), enabled := false)), req, Staged(r.user))
    case LoadStaged(req) =>
      if !r.MayEnable? || r.user !in s.users then s
      else if s.users[r.user].secret.None? then Put(s, req, Rejected)
      else Put(s, req, Confirming(r.user, s.users[r.user].secret.value))
    case Confirm(req, valid, batch) =>
      if !r.Confirming? then s
      else if !valid then Put(s, req, Rejected)
      else if r.user !in s.users || |batch| != RECOVERY_CODE_COUNT || !(batch !! s.made) then s
      else
        Put(SaveUser(s, r.user, s.users[r.user].(enabled := true, lastStep := None, epoch := s.users[r.user].epoch + 1))
            .(codes := WithoutCodes(s.codes, r.user) + FreshCodes(batch, r.user), made := s.made + batch),
            req, Enrolled(r.user))
    case _ => s
  }

  predicate Begins(step: Step) {
    step.Login? || step.Present? || step.BeginSetup? || step.BeginEnable? || step.BeginDisable?
  }

  function Next(s: State, step: Step): State {
    if Begins(step) then Begin(s, step) else Continue(s, step)
  }

  function Run(s: State, steps: seq<Step>): State {
    Fold(Next, s, steps)
  }

  // ------------------------------------------------------------- invariants

  function FactorOf(r: Request): Option<Factor> {
    match r
    case Proved(_, _, f) => Some(f)
    case Session(_, ViaMfa(_, f)) => Some(f)
    case TurnedOff(_, f) => Some(f)
    case _ => None
  }

  function ChallengeOf(r: Request): Option<string> {
    match r
    case Presented(_, SignIn(ch), _) => Some(ch)
    case Loaded(_, SignIn(ch), _) => Some(ch)
    case Proved(_, SignIn(ch), _) => Some(ch)
    case Session(_, ViaMfa(ch, _)) => Some(ch)
    case _ => None
  }

  predicate StepsIncrease(accepted: seq<Accepted>) {
    forall i, j :: 0 <= i < j < |accepted| ==>
      accepted[i].user == accepted[j].user && accepted[i].epoch == accepted[j].epoch ==>
      accepted[i].step < accepted[j].step
  }

  /** The stored last step covers every step accepted under the current enrolment. */
  predicate Covers(users: map<string, User>, a: Accepted) {
    && a.user in users && a.epoch <= users[a.user].epoch
    && (a.epoch == users[a.user].epoch ==> users[a.user].lastStep.Some? && a.step <= users[a.user].lastStep.value)
  }

  predicate StepsCovered(s: State) {
    forall i :: 0 <= i < |s.accepted| ==> Covers(s.users, s.accepted[i])
  }

  predicate CodesKept(s: State) {
    && s.spent.Keys <= s.made
    && (forall c :: c in s.codes ==> c in s.made && (c in s.spent ==> s.codes[c].consumed))
  }

  predicate FactorKnown(s: State, user: string, f: Factor) {
    match f
    case Totp(a) => a in s.accepted && a.user == user
    case Recovery(c) => c in s.spent && s.spent[c] == user
  }

  predicate FactorsKnown(s: State) {
    forall q :: q in s.requests && FactorOf(s.requests[q]).Some? ==>
      FactorKnown(s, s.requests[q].user, FactorOf(s.requests[q]).value)
  }

  predicate FactorsDistinct(s: State) {
    forall p, q :: p in s.requests && q in s.requests && p != q && FactorOf(s.requests[p]).Some? ==>
      FactorOf(s.requests[p]) != FactorOf(s.requests[q])
  }

  predicate Consumed(s: State, user: string, ch: string) {
    ch in s.challenges && s.challenges[ch].user == user && s.challenges[ch].consumed.Some?
  }

  predicate ChallengesConsumed(s: State) {
    forall q :: q in s.requests && ChallengeOf(s.requests[q]).Some? ==>
      Consumed(s, s.requests[q].user, ChallengeOf(s.requests[q]).value)
  }

  predicate ChallengesDistinct(s: State) {
    forall p, q :: p in s.requests && q in s.requests && p != q && ChallengeOf(s.requests[p]).Some? ==>
      ChallengeOf(s.requests[p]) != ChallengeOf(s.requests[q])
  }

  /** Every challenge was issued by a login of its own user that read MFA as enabled. */
  ghost predicate ChallengesIssued(s: State) {
    forall ch :: ch in s.challenges ==>
      exists q :: q in s.requests && s.requests[q] == Issued(s.challenges[ch].user, ch)
  }

  ghost predicate Inv(s: State) {
    && StepsIncrease(s.accepted) && StepsCovered(s) && CodesKept(s)
    && FactorsKnown(s) && FactorsDistinct(s)
    && ChallengesConsumed(s) && ChallengesDistinct(s) && ChallengesIssued(s)
  }

  /** A step of one request that proves no factor and touches no challenge, code or last step. */
  lemma QuietStep(s: State, req: nat, r: Request)
    requires Inv(s)
    requires FactorOf(r).None? || (req in s.requests && FactorOf(r) == FactorOf(s.requests[req]) && r.user == s.requests[req].user)
    requires ChallengeOf(r).None?
             || (req in s.requests && ChallengeOf(r) == ChallengeOf(s.requests[req]) && r.user == s.requests[req].user)
    requires req in s.requests ==> !s.requests[req].Issued?
    ensures Inv(Put(s, req, r))
  {
    hide FactorsKnown, FactorsDistinct, ChallengesConsumed, ChallengesDistinct, StepsIncrease, Covers, FactorOf, ChallengeOf;
    QuietFactors(s, req, r);
    QuietChallenges(s, req, r);
    var s' := Put(s, req, r);
    forall ch | ch in s'.challenges
      ensures exists q :: q in s'.requests && s'.requests[q] == Issued(s'.challenges[ch].user, ch)
    {
      var q :| q in s.requests && s.requests[q] == Issued(s.challenges[ch].user, ch);
      assert s'.requests[q] == s.requests[q];
    }
  }

  lemma QuietFactors(s: State, req: nat, r: Request)
    requires FactorsKnown(s) && FactorsDistinct(s)
    requires FactorOf(r).None? || (req in s.requests && FactorOf(r) == FactorOf(s.requests[req]) && r.user == s.requests[req].user)
    ensures FactorsKnown(Put(s, req, r)) && FactorsDistinct(Put(s, req, r))
  {
    hide FactorOf;
  }

  lemma QuietChallenges(s: State, req: nat, r: Request)
    requires ChallengesConsumed(s) && ChallengesDistinct(s)
    requires ChallengeOf(r).None?
             || (req in s.requests && ChallengeOf(r) == ChallengeOf(s.requests[req]) && r.user == s.requests[req].user)
    ensures ChallengesConsumed(Put(s, req, r)) && ChallengesDistinct(Put(s, req, r))
  {
    hide ChallengeOf;
  }

  /** Rewriting a user row so that earlier steps stay covered. */
  lemma UserStep(s: State, u: string, row: User)
    requires Inv(s) && u in s.users && row.epoch >= s.users[u].epoch
    requires row.epoch == s.users[u].epoch ==> row.lastStep == s.users[u].lastStep
    ensures Inv(SaveUser(s, u, row))
  {
  }

  /** Replacing the recovery codes of a user. */
  lemma CodesStep(s: State, u: string, batch: set<string>)
    requires Inv(s) && batch !! s.made
    ensures Inv(s.(codes := WithoutCodes(s.codes, u) + FreshCodes(batch, u), made := s.made + batch))
  {
  }

  /** A request without a factor is added or replaced; the others keep theirs. */
  lemma FactorsCarry(s: State, s': State, req: nat)
    requires FactorsKnown(s) && FactorsDistinct(s) && s'.accepted == s.accepted && s'.spent == s.spent
    requires req in s'.requests && s'.requests == s.requests[req := s'.requests[req]]
    requires s'.requests[req].Issued? || s'.requests[req].Presented?
    ensures FactorsKnown(s') && FactorsDistinct(s')
  {
  }

  lemma IssuedChallenges(s: State, req: nat, u: string, ch: string, expires: int)
    requires ChallengesConsumed(s) && ChallengesDistinct(s) && ch !in s.challenges
    ensures var s' := Put(s.(challenges := s.challenges[ch := C.Challenge(u, expires, None)]), req, Issued(u, ch));
            ChallengesConsumed(s') && ChallengesDistinct(s')
  {
  }

  lemma PresentedChallenges(s: State, req: nat, ch: string, code: string, now: int)
    requires ChallengesConsumed(s) && ChallengesDistinct(s) && req !in s.requests
    requires ch in s.challenges && s.challenges[ch].consumed.None?
    ensures var s' := Put(s.(challenges := s.challenges[ch := s.challenges[ch].(consumed := Some(now))]),
                          req, Presented(s.challenges[ch].user, SignIn(ch), code));
            ChallengesConsumed(s') && ChallengesDistinct(s')
  {
  }

  lemma IssueStep(s: State, req: nat, u: string, ch: string, expires: int)
    requires Inv(s) && ch !in s.challenges && req in s.requests && s.requests[req].Checked?
    ensures Inv(Put(s.(challenges := s.challenges[ch := C.Challenge(u, expires, None)]), req, Issued(u, ch)))
  {
    hide StepsIncrease, Covers, FactorOf, ChallengeOf, FactorsKnown, FactorsDistinct, ChallengesConsumed, ChallengesDistinct;
    var s' := Put(s.(challenges := s.challenges[ch := C.Challenge(u, expires, None)]), req, Issued(u, ch));
    IssuedChallenges(s, req, u, ch, expires);
    FactorsCarry(s, s', req);
    forall c | c in s'.challenges
      ensures exists q :: q in s'.requests && s'.requests[q] == Issued(s'.challenges[c].user, c)
    {
      if c == ch {
        assert s'.requests[req] == Issued(u, ch);
      } else {
        var q :| q in s.requests && s.requests[q] == Issued(s.challenges[c].user, c);
        assert s'.requests[q] == s.requests[q];
      }
    }
  }

  lemma PresentStep(s: State, req: nat, ch: string, code: string, now: int)
    requires Inv(s) && req !in s.requests && ch in s.challenges && s.challenges[ch].consumed.None?
    ensures Inv(Put(s.(challenges := s.challenges[ch := s.challenges[ch].(consumed := Some(now))]),
                    req, Presented(s.challenges[ch].user, SignIn(ch), code)))
  {
    hide StepsIncrease, Covers, FactorOf, ChallengeOf, FactorsKnown, FactorsDistinct, ChallengesConsumed, ChallengesDistinct;
    var s' := Put(s.(challenges := s.challenges[ch := s.challenges[ch].(consumed := Some(now))]),
                  req, Presented(s.challenges[ch].user, SignIn(ch), code));
    PresentedChallenges(s, req, ch, code, now);
    FactorsCarry(s, s', req);
    forall c | c in s'.challenges
      ensures exists q :: q in s'.requests && s'.requests[q] == Issued(s'.challenges[c].user, c)
    {
      var q :| q in s.requests && s.requests[q] == Issued(s.challenges[c].user, c);
      assert s'.requests[q] == s.requests[q];
    }
  }

  /** An accepted step is new: the last step covers all earlier ones of the enrolment. */
  lemma AcceptStep(s: State, req: nat, u: string, goal: Goal, step: int)
    requires Inv(s) && req in s.requests && u in s.users && Newer(s.users[u].lastStep, step)
    requires s.requests[req].Loaded? && s.requests[req].user == u && s.requests[req].goal == goal
    ensures var a := Accepted(u, s.users[u].epoch, s.requests[req].secret, step);
            Inv(Put(SaveUser(s, u, s.users[u].(lastStep := Some(step))).(accepted := s.accepted + [a]),
                    req, Proved(u, goal, Totp(a))))
  {
    hide FactorsKnown, FactorsDistinct, ChallengesConsumed, ChallengesDistinct, ChallengesIssued;
    var a := Accepted(u, s.users[u].epoch, s.requests[req].secret, step);
    var t := SaveUser(s, u, s.users[u].(lastStep := Some(step))).(accepted := s.accepted + [a]);
    var s' := Put(t, req, Proved(u, goal, Totp(a)));
    assert a !in s.accepted;
    assert StepsIncrease(s'.accepted) && StepsCovered(s');
    assert a in s'.accepted;
    ProvedStep(s, t, req, u, goal, Totp(a));
  }

  /** A proved factor that was not known before is no other request's. */
  lemma ProvedStep(s: State, t: State, req: nat, u: string, goal: Goal, f: Factor)
    requires Inv(s) && t.requests == s.requests && t.challenges == s.challenges
    requires forall a :: a in s.accepted ==> a in t.accepted
    requires SpentKept(s, t) && FactorKnown(t, u, f)
    requires if f.Totp? then f.accepted !in s.accepted else f.code !in s.spent
    requires req in s.requests && !s.requests[req].Rejected? && s.requests[req].user == u
    requires ChallengeOf(s.requests[req]) == ChallengeOf(Proved(u, goal, f))
    requires !s.requests[req].Issued?
    ensures var s' := Put(t, req, Proved(u, goal, f));
            && FactorsKnown(s') && FactorsDistinct(s')
            && ChallengesConsumed(s') && ChallengesDistinct(s') && ChallengesIssued(s')
  {
    hide StepsIncrease, Covers, CodesKept, FactorsKnown, FactorsDistinct, ChallengesConsumed, ChallengesDistinct, ChallengeOf;
    var s' := Put(t, req, Proved(u, goal, f));
    ProvedFactors(s, t, req, u, goal, f);
    ProvedChallenges(s, t, req, Proved(u, goal, f));
    forall c | c in s'.challenges
      ensures exists q :: q in s'.requests && s'.requests[q] == Issued(s'.challenges[c].user, c)
    {
      var q :| q in s.requests && s.requests[q] == Issued(s.challenges[c].user, c);
      assert s'.requests[q] == s.requests[q];
    }
  }

  /** Codes once spent stay spent, by the same user. */
  predicate SpentKept(s: State, t: State) {
    forall c :: c in s.spent ==> c in t.spent && t.spent[c] == s.spent[c]
  }

  lemma ProvedFactors(s: State, t: State, req: nat, u: string, goal: Goal, f: Factor)
    requires FactorsKnown(s) && FactorsDistinct(s) && t.requests == s.requests
    requires forall a :: a in s.accepted ==> a in t.accepted
    requires SpentKept(s, t) && FactorKnown(t, u, f)
    requires if f.Totp? then f.accepted !in s.accepted else f.code !in s.spent
    ensures FactorsKnown(Put(t, req, Proved(u, goal, f))) && FactorsDistinct(Put(t, req, Proved(u, goal, f)))
  {
  }

  lemma ProvedChallenges(s: State, t: State, req: nat, r: Request)
    requires ChallengesConsumed(s) && ChallengesDistinct(s) && t.requests == s.requests && t.challenges == s.challenges
    requires req in s.requests && ChallengeOf(r) == ChallengeOf(s.requests[req])
    requires ChallengeOf(r).Some? ==> r.user == s.requests[req].user
    ensures ChallengesConsumed(Put(t, req, r)) && ChallengesDistinct(Put(t, req, r))
  {
    hide ChallengeOf;
  }

  lemma RecoverStep(s: State, req: nat, u: string, goal: Goal, code: string)
    requires Inv(s) && req in s.requests && code in s.codes && s.codes[code] == CodeRow(u, false)
    requires s.requests[req].Presented? && s.requests[req].user == u && s.requests[req].goal == goal
    ensures Inv(Put(s.(codes := s.codes[code := CodeRow(u, true)], spent := s.spent[code := u]),
                    req, Proved(u, goal, Recovery(code))))
  {
    hide StepsIncrease, Covers, FactorsKnown, FactorsDistinct, ChallengesConsumed, ChallengesDistinct, ChallengesIssued;
    var t := s.(codes := s.codes[code := CodeRow(u, true)], spent := s.spent[code := u]);
    ProvedStep(s, t, req, u, goal, Recovery(code));
  }

  lemma BeginKeepsInv(s: State, step: Step)
    requires Inv(s)
    ensures Inv(Begin(s, step))
  {
    hide Inv;
    if step.req !in s.requests {
      match step
      case Login(req, u) => if u in s.users { QuietStep(s, req, Checked(u, s.users[u].enabled)); }
      case Present(req, ch, code, now) =>
        if ch in s.challenges && C.ChallengeLive(s.challenges[ch], now) {
          PresentStep(s, req, ch, code, now);
        } else {
          QuietStep(s, req, Rejected);
        }
      case BeginSetup(req, u) => QuietStep(s, req, Rejected); QuietStep(s, req, MayStage(u));
      case BeginEnable(req, u) => QuietStep(s, req, Rejected); QuietStep(s, req, MayEnable(u));
      case BeginDisable(req, u, code) => QuietStep(s, req, Rejected); QuietStep(s, req, Presented(u, TurnOff, code));
      case _ =>
    }
  }

  lemma LoginKeepsInv(s: State, step: Step)
    requires Inv(s) && Identifies(step)
    ensures Inv(Continue(s, step))
  {
    hide Inv;
    if step.req in s.requests {
      match (s.requests[step.req], step)
      case (Checked(u, enabled), Answer(req, ch, now)) =>
        if !enabled {
          QuietStep(s, req, Session(u, Direct));
        } else if ch !in s.challenges {
          IssueStep(s, req, u, ch, now + C.MFA_CHALLENGE_TTL);
        }
      case (Presented(u, goal, code), Load(req)) =>
        QuietStep(s, req, Rejected);
        if u in s.users && s.users[u].secret.Some? {
          QuietStep(s, req, Loaded(u, goal, s.users[u].secret.value));
        }
      case (Loaded(u, goal, _), Advance(req, verdict)) =>
        QuietStep(s, req, Rejected);
        if u in s.users && verdict.Some? && Newer(s.users[u].lastStep, verdict.value) {
          AcceptStep(s, req, u, goal, verdict.value);
        }
      case (Presented(u, goal, code), Recover(req)) =>
        QuietStep(s, req, Rejected);
        if code in s.codes && s.codes[code] == CodeRow(u, false) {
          RecoverStep(s, req, u, goal, code);
        }
      case _ =>
    }
  }

  lemma EnrolmentKeepsInv(s: State, step: Step)
    requires Inv(s) && (step.Finish? || step.Stage? || step.LoadStaged? || step.Confirm?)
    ensures Inv(Continue(s, step))
  {
    hide Inv, Continue;
    if step.Finish? {
      FinishKeepsInv(s, step);
    } else if step.Confirm? {
      ConfirmKeepsInv(s, step);
    } else {
      StagingKeepsInv(s, step);
    }
  }

  lemma FinishKeepsInv(s: State, step: Step)
    requires Inv(s) && step.Finish?
    ensures Inv(Continue(s, step))
  {
    hide Inv;
    if step.req in s.requests {
      match (s.requests[step.req], step)
      case (Proved(u, SignIn(ch), factor), Finish(req)) => QuietStep(s, req, Session(u, ViaMfa(ch, factor)));
      case (Proved(u, TurnOff, factor), Finish(req)) =>
        if u in s.users {
          QuietStep(s, req, TurnedOff(u, factor));
          var t := Put(s, req, TurnedOff(u, factor));
          UserStep(t, u, s.users[u].(secret := None, enabled := false));
          CodesStep(SaveUser(t, u, s.users[u].(secret := None, enabled := false)), u, {});
          assert WithoutCodes(s.codes, u) + FreshCodes({}, u) == WithoutCodes(s.codes, u);
          assert s.made + {} == s.made;
        }
      case _ =>
    }
  }

  lemma StagingKeepsInv(s: State, step: Step)
    requires Inv(s) && (step.Stage? || step.LoadStaged?)
    ensures Inv(Continue(s, step))
  {
    hide Inv;
    if step.req in s.requests {
      match (s.requests[step.req], step)
      case (MayStage(u), Stage(req, secret)) =>
        if u in s.users {
          QuietStep(s, req, Staged(u));
          UserStep(Put(s, req, Staged(u)), u, s.users[u].(secret := Some(secret), enabled := false));
        }
      case (MayEnable(u), LoadStaged(req)) =>
        QuietStep(s, req, Rejected);
        if u in s.users && s.users[u].secret.Some? {
          QuietStep(s, req, Confirming(u, s.users[u].secret.value));
        }
      case _ =>
    }
  }

  lemma ConfirmKeepsInv(s: State, step: Step)
    requires Inv(s) && step.Confirm?
    ensures Inv(Continue(s, step))
  {
    hide Inv, WithoutCodes, FreshCodes;
    if step.req in s.requests && s.requests[step.req].Confirming? {
      var u, req, batch := s.requests[step.req].user, step.req, step.batch;
      QuietStep(s, req, Rejected);
      if u in s.users && batch !! s.made {
        QuietStep(s, req, Enrolled(u));
        var row := s.users[u].(enabled := true, lastStep := None, epoch := s.users[u].epoch + 1);
        UserStep(Put(s, req, Enrolled(u)), u, row);
        CodesStep(SaveUser(Put(s, req, Enrolled(u)), u, row), u, batch);
      }
    }
  }

  lemma {:induction false} RunKeepsInv(s: State, steps: seq<Step>)
    requires Inv(s)
    ensures Inv(Run(s, steps))
    decreases |steps|
  {
    hide Inv, Begin, Continue;
    if steps != [] {
      var n := |steps| - 1;
      RunKeepsInv(s, steps[..n]);
      NextKeepsInv(Run(s, steps[..n]), steps[n]);
    }
  }

  lemma NextKeepsInv(s: State, step: Step)
    requires Inv(s)
    ensures Inv(Next(s, step))
  {
    hide Inv, Begin, Continue;
    BeginKeepsInv(s, step);
    if !Begins(step) {
      if Identifies(step) {
        LoginKeepsInv(s, step);
      } else {
        EnrolmentKeepsInv(s, step);
      }
    }
  }

  // ------------------------------------------------------------ main results

  /** Before anything happened; enrolments are counted from here. */
  function Initial(users: map<string, User>): State {
    State(map u | u in users :: users[u].(epoch := 0), map[], map[], map[], [], {}, map[])
  }

  /**
   Section 5.2 of RFC 6238, over every interleaved run: within one enrolment the
   accepted time steps of a user strictly increase, so none is accepted twice.
   */
  lemma AcceptedStepsIncrease(users: map<string, User>, steps: seq<Step>)
    ensures StepsIncrease(Run(Initial(users), steps).accepted)
  {
    RunKeepsInv(Initial(users), steps);
  }

  /**
   Over every interleaved run, a session minted with a second factor stands on a
   consumed challenge of its own user, issued by a login of that user that read
   MFA as enabled, and on one accepted step of that user or one spent code.
   */
  lemma SessionRestsOnFactor(users: map<string, User>, steps: seq<Step>, q: nat)
    requires var s := Run(Initial(users), steps);
             q in s.requests && s.requests[q].Session? && s.requests[q].origin.ViaMfa?
    ensures var s := Run(Initial(users), steps);
            && Consumed(s, s.requests[q].user, s.requests[q].origin.challenge)
            && FactorKnown(s, s.requests[q].user, s.requests[q].origin.factor)
            && exists p :: p in s.requests && s.requests[p] == Issued(s.requests[q].user, s.requests[q].origin.challenge)
  {
    RunKeepsInv(Initial(users), steps);
    var s := Run(Initial(users), steps);
    assert ChallengeOf(s.requests[q]) == Some(s.requests[q].origin.challenge);
    assert FactorOf(s.requests[q]) == Some(s.requests[q].origin.factor);
    assert s.requests[q].origin.challenge in s.challenges;
  }

  /** No two sessions share a challenge or a factor, and no session shares one with a factor's removal. */
  lemma OneFactorOneSession(users: map<string, User>, steps: seq<Step>, p: nat, q: nat)
    requires var s := Run(Initial(users), steps);
             && p in s.requests && s.requests[p].Session? && s.requests[p].origin.ViaMfa?
             && q in s.requests && p != q
    ensures var s := Run(Initial(users), steps);
            && (s.requests[q].Session? && s.requests[q].origin.ViaMfa? ==>
                  && s.requests[q].origin.challenge != s.requests[p].origin.challenge
                  && s.requests[q].origin.factor != s.requests[p].origin.factor)
            && (s.requests[q].TurnedOff? ==> s.requests[q].factor != s.requests[p].origin.factor)
  {
    hide Run, Inv, Initial;
    InitialInv(users);
    RunKeepsInv(Initial(users), steps);
    InvDistinct(Run(Initial(users), steps), p, q);
  }

  lemma InitialInv(users: map<string, User>)
    ensures Inv(Initial(users))
  {
  }

  lemma InvDistinct(s: State, p: nat, q: nat)
    requires Inv(s) && p in s.requests && q in s.requests && p != q
    ensures FactorOf(s.requests[p]).Some? ==> FactorOf(s.requests[p]) != FactorOf(s.requests[q])
    ensures ChallengeOf(s.requests[p]).Some? ==> ChallengeOf(s.requests[p]) != ChallengeOf(s.requests[q])
  {
    hide StepsIncrease, StepsCovered, CodesKept, FactorsKnown, ChallengesConsumed, ChallengesIssued, FactorOf, ChallengeOf;
  }

  lemma EnabledLoginStep(s: State, step: Step, q: nat)
    requires q in s.requests
    requires (s.requests[q].Checked? && s.requests[q].enabled) || s.requests[q].Issued?
    ensures var s' := Next(s, step);
            && q in s'.requests
            && (s'.requests[q] == s.requests[q] || (s'.requests[q].Issued? && s'.requests[q].user == s.requests[q].user))
  {
    hide Begin, Continue;
    BeginKeepsRequest(s, step, q);
    if !Begins(step) {
      ContinueKeepsLogin(s, step, q);
    }
  }

  lemma BeginKeepsRequest(s: State, step: Step, q: nat)
    requires q in s.requests
    ensures q in Begin(s, step).requests && Begin(s, step).requests[q] == s.requests[q]
  {
  }

  lemma ContinueKeepsLogin(s: State, step: Step, q: nat)
    requires q in s.requests
    requires (s.requests[q].Checked? && s.requests[q].enabled) || s.requests[q].Issued?
    ensures var s' := Continue(s, step);
            && q in s'.requests
            && (s'.requests[q] == s.requests[q] || (s'.requests[q].Issued? && s'.requests[q].user == s.requests[q].user))
  {
    hide Continue;
    OwnRequestOnly(s, step);
    if step.req == q {
      OnlyAnswered(s, step);
    }
  }

  /** A step continues its own request and no other. */
  predicate OwnOnly(s: State, t: State, req: nat) {
    t.requests == s.requests || (req in t.requests && t.requests == s.requests[req := t.requests[req]])
  }

  lemma OwnRequestOnly(s: State, step: Step)
    ensures OwnOnly(s, Continue(s, step), step.req)
  {
    hide Identify, Change;
    if step.req in s.requests {
      IdentifyOwn(s, step, s.requests[step.req]);
      ChangeOwn(s, step, s.requests[step.req]);
    }
  }

  lemma IdentifyOwn(s: State, step: Step, r: Request)
    ensures OwnOnly(s, Identify(s, step, r), step.req)
  {
    hide Newer, SixDigits;
  }

  lemma ChangeOwn(s: State, step: Step, r: Request)
    ensures OwnOnly(s, Change(s, step, r), step.req)
  {
    hide WithoutCodes, FreshCodes;
  }

  /** What a login that has read MFA as enabled, or has issued its challenge, can still become. */
  lemma OnlyAnswered(s: State, step: Step)
    requires step.req in s.requests
    requires (s.requests[step.req].Checked? && s.requests[step.req].enabled) || s.requests[step.req].Issued?
    ensures var t := Continue(s, step);
            && step.req in t.requests
            && (t.requests[step.req] == s.requests[step.req]
                || (t.requests[step.req].Issued? && t.requests[step.req].user == s.requests[step.req].user))
  {
    hide Newer, SixDigits, WithoutCodes, FreshCodes, SaveUser;
  }

  /** A login that has read MFA as enabled only ever issues a challenge. */
  lemma {:induction false} EnabledLoginNeverMints(s: State, steps: seq<Step>, q: nat)
    requires q in s.requests
    requires (s.requests[q].Checked? && s.requests[q].enabled) || s.requests[q].Issued?
    ensures q in Run(s, steps).requests
    ensures Run(s, steps).requests[q] == s.requests[q]
         || (Run(s, steps).requests[q].Issued? && Run(s, steps).requests[q].user == s.requests[q].user)
    decreases |steps|
  {
    hide Next;
    if steps != [] {
      var n := |steps| - 1;
      EnabledLoginNeverMints(s, steps[..n], q);
      EnabledLoginStep(Run(s, steps[..n]), steps[n], q);
    }
  }

  lemma RetiredStep(s: State, step: Step, c: string)
    requires c in s.made && c !in s.codes
    ensures c in Next(s, step).made && c !in Next(s, step).codes
  {
    hide Begin, Continue;
    RetiredAtBegin(s, step, c);
    RetiredAtContinue(s, step, c);
  }

  lemma RetiredAtBegin(s: State, step: Step, c: string)
    requires c in s.made && c !in s.codes
    ensures c in Begin(s, step).made && c !in Begin(s, step).codes
  {
    hide C.ChallengeLive;
  }

  lemma RetiredAtContinue(s: State, step: Step, c: string)
    requires c in s.made && c !in s.codes
    ensures c in Continue(s, step).made && c !in Continue(s, step).codes
  {
    hide Identify, Change;
    if step.req in s.requests {
      RetiredAtIdentify(s, step, s.requests[step.req], c);
      RetiredAtChange(s, step, s.requests[step.req], c);
    }
  }

  lemma RetiredAtIdentify(s: State, step: Step, r: Request, c: string)
    requires c in s.made && c !in s.codes
    ensures c in Identify(s, step, r).made && c !in Identify(s, step, r).codes
  {
    hide SixDigits, Newer;
  }

  lemma RetiredAtChange(s: State, step: Step, r: Request, c: string)
    requires c in s.made && c !in s.codes
    ensures c in Change(s, step, r).made && c !in Change(s, step, r).codes
  {
  }

  /** A recovery code that has left the table, at a new enrolment or when the factor is turned off, never returns. */
  lemma {:induction false} RetiredCodesStayOut(s: State, steps: seq<Step>, c: string)
    requires c in s.made && c !in s.codes
    ensures c in Run(s, steps).made && c !in Run(s, steps).codes
    decreases |steps|
  {
    hide Next;
    if steps != [] {
      var n := |steps| - 1;
      RetiredCodesStayOut(s, steps[..n], c);
      RetiredStep(Run(s, steps[..n]), steps[n], c);
    }
  }

  // ---------------------------------------------------------- what does sign in

  function SignInSteps(a: nat, b: nat, u: string, ch: string, code: string, now: int, verdict: Option<int>): seq<Step> {
    [Login(a, u), Answer(a, ch, now)] + MfaSteps(b, ch, code, now, verdict)
  }

  /** The statements of one `/login/mfa` request; the code decides which of them apply. */
  function MfaSteps(b: nat, ch: string, code: string, now: int, verdict: Option<int>): seq<Step> {
    [Present(b, ch, code, now), Load(b), Advance(b, verdict), Recover(b), Finish(b)]
  }

  /** A right code signs in: once, under its challenge, and the step is spent. */
  lemma SignsIn(s: State, a: nat, b: nat, u: string, ch: string, code: string, now: int, step: int)
    requires u in s.users && s.users[u].enabled && s.users[u].secret.Some? && Newer(s.users[u].lastStep, step)
    requires a !in s.requests && b !in s.requests && a != b && ch !in s.challenges && SixDigits(code)
    ensures var acc := Accepted(u, s.users[u].epoch, s.users[u].secret.value, step);
            Run(s, SignInSteps(a, b, u, ch, code, now, Some(step)))
            == State(s.users[u := s.users[u].(lastStep := Some(step))], s.codes,
                     s.challenges[ch := C.Challenge(u, now + C.MFA_CHALLENGE_TTL, Some(now))],
                     s.requests[a := Issued(u, ch)][b := Session(u, ViaMfa(ch, Totp(acc)))],
                     s.accepted + [acc], s.made, s.spent)
  {
    hide Next, SixDigits;
    var acc := Accepted(u, s.users[u].epoch, s.users[u].secret.value, step);
    FoldSplit(Next, s, [Login(a, u), Answer(a, ch, now)], MfaSteps(b, ch, code, now, Some(step)));
    FoldTwo(Next, s, Login(a, u), Answer(a, ch, now));
    var pending := s.challenges[ch := C.Challenge(u, now + C.MFA_CHALLENGE_TTL, None)];
    var s2 := s.(challenges := pending, requests := s.requests[a := Issued(u, ch)]);
    LoginIssues(s, a, u, ch, now);
    MfaSignsIn(s2, b, u, ch, code, now, step);
    assert pending[ch := pending[ch].(consumed := Some(now))]
        == s.challenges[ch := C.Challenge(u, now + C.MFA_CHALLENGE_TTL, Some(now))];
  }

  lemma LoginIssues(s: State, a: nat, u: string, ch: string, now: int)
    requires u in s.users && s.users[u].enabled && a !in s.requests && ch !in s.challenges
    ensures Next(Next(s, Login(a, u)), Answer(a, ch, now))
         == s.(challenges := s.challenges[ch := C.Challenge(u, now + C.MFA_CHALLENGE_TTL, None)],
               requests := s.requests[a := Issued(u, ch)])
  {
    assert s.requests[a := Checked(u, true)][a := Issued(u, ch)] == s.requests[a := Issued(u, ch)];
  }

  lemma MfaSignsIn(s: State, b: nat, u: string, ch: string, code: string, now: int, step: int)
    requires u in s.users && s.users[u].secret.Some? && Newer(s.users[u].lastStep, step) && SixDigits(code)
    requires b !in s.requests && ch in s.challenges && s.challenges[ch].user == u && C.ChallengeLive(s.challenges[ch], now)
    ensures var acc := Accepted(u, s.users[u].epoch, s.users[u].secret.value, step);
            Run(s, MfaSteps(b, ch, code, now, Some(step)))
            == State(s.users[u := s.users[u].(lastStep := Some(step))], s.codes,
                     s.challenges[ch := s.challenges[ch].(consumed := Some(now))],
                     s.requests[b := Session(u, ViaMfa(ch, Totp(acc)))], s.accepted + [acc], s.made, s.spent)
  {
    hide Next, SixDigits, C.ChallengeLive;
    var acc := Accepted(u, s.users[u].epoch, s.users[u].secret.value, step);
    var goal, secret := SignIn(ch), s.users[u].secret.value;
    FoldFive(Next, s, Present(b, ch, code, now), Load(b), Advance(b, Some(step)), Recover(b), Finish(b));
    Presents(s, b, ch, code, now);
    var s1 := s.(challenges := s.challenges[ch := s.challenges[ch].(consumed := Some(now))],
                 requests := s.requests[b := Presented(u, goal, code)]);
    Loads(s1, b);
    var s2 := s1.(requests := s.requests[b := Loaded(u, goal, secret)]);
    assert s1.requests[b := Loaded(u, goal, secret)] == s2.requests;
    Advances(s2, b, step);
    var s3 := s2.(users := s.users[u := s.users[u].(lastStep := Some(step))], accepted := s.accepted + [acc],
                  requests := s.requests[b := Proved(u, goal, Totp(acc))]);
    assert s2.requests[b := Proved(u, goal, Totp(acc))] == s3.requests;
    FinishesSignIn(s3, b);
    assert s3.requests[b := Session(u, ViaMfa(ch, Totp(acc)))] == s.requests[b := Session(u, ViaMfa(ch, Totp(acc)))];
  }

  lemma EnableBegins(s: State, req: nat, u: string)
    requires req !in s.requests && u in s.users && !s.users[u].enabled
    ensures Next(s, BeginEnable(req, u)) == Put(s, req, MayEnable(u))
  {
  }

  lemma StagedLoads(s: State, req: nat, u: string)
    requires req in s.requests && s.requests[req] == MayEnable(u) && u in s.users && s.users[u].secret.Some?
    ensures Next(s, LoadStaged(req)) == Put(s, req, Confirming(u, s.users[u].secret.value))
  {
  }

  lemma Confirms(s: State, req: nat, u: string, batch: set<string>)
    requires req in s.requests && s.requests[req].Confirming? && s.requests[req].user == u && u in s.users
    requires |batch| == RECOVERY_CODE_COUNT && batch !! s.made
    ensures Next(s, Confirm(req, true, batch))
         == Put(SaveUser(s, u, s.users[u].(enabled := true, lastStep := None, epoch := s.users[u].epoch + 1))
                .(codes := WithoutCodes(s.codes, u) + FreshCodes(batch, u), made := s.made + batch), req, Enrolled(u))
  {
  }

  // ------------------------------------------------- single statements of a request

  lemma Presents(s: State, req: nat, ch: string, code: string, now: int)
    requires req !in s.requests
    ensures Next(s, Present(req, ch, code, now))
         == if ch in s.challenges && C.ChallengeLive(s.challenges[ch], now) then
              Put(s.(challenges := s.challenges[ch := s.challenges[ch].(consumed := Some(now))]),
                  req, Presented(s.challenges[ch].user, SignIn(ch), code))
            else Put(s, req, Rejected)
  {
  }

  lemma DisableBegins(s: State, req: nat, u: string, code: string)
    requires req !in s.requests && u in s.users
    ensures Next(s, BeginDisable(req, u, code))
         == Put(s, req, if s.users[u].enabled then Presented(u, TurnOff, code) else Rejected)
  {
  }

  lemma RejectedStays(s: State, req: nat, verdict: Option<int>)
    requires req in s.requests && s.requests[req].Rejected?
    ensures Next(s, Load(req)) == s && Next(s, Advance(req, verdict)) == s
    ensures Next(s, Recover(req)) == s && Next(s, Finish(req)) == s
  {
  }

  lemma Loads(s: State, req: nat)
    requires req in s.requests && s.requests[req].Presented? && s.requests[req].user in s.users
    ensures var r := s.requests[req];
            Next(s, Load(req))
            == if !SixDigits(r.code) then s
               else if s.users[r.user].secret.None? then Put(s, req, Rejected)
               else Put(s, req, Loaded(r.user, r.goal, s.users[r.user].secret.value))
  {
  }

  lemma Advances(s: State, req: nat, step: int)
    requires req in s.requests && s.requests[req].Loaded? && s.requests[req].user in s.users
    requires Newer(s.users[s.requests[req].user].lastStep, step)
    ensures var r := s.requests[req];
            var a := Accepted(r.user, s.users[r.user].epoch, r.secret, step);
            var s' := Put(SaveUser(s, r.user, s.users[r.user].(lastStep := Some(step))).(accepted := s.accepted + [a]),
                          req, Proved(r.user, r.goal, Totp(a)));
            Next(s, Advance(req, Some(step))) == s' && Next(s', Recover(req)) == s'
  {
  }

  /** A six-digit code is checked as a TOTP: the request ends up proved or rejected, and the other check is skipped. */
  lemma TotpChecked(s: State, req: nat, verdict: Option<int>)
    requires req in s.requests && s.requests[req].Presented? && s.requests[req].user in s.users
    requires SixDigits(s.requests[req].code)
    ensures var s' := Next(Next(s, Load(req)), Advance(req, verdict));
            && Next(s', Recover(req)) == s' && req in s'.requests
            && (s'.requests[req].Proved? || (s'.requests[req].Rejected? && Next(s', Finish(req)) == s'))
  {
    hide SixDigits, Next;
    var r := s.requests[req];
    var s1 := Next(s, Load(req));
    Loads(s, req);
    if s1.requests[req].Rejected? {
      RejectedStays(s1, req, verdict);
    } else if verdict.Some? && Newer(s.users[r.user].lastStep, verdict.value) {
      Advances(s1, req, verdict.value);
    } else {
      AdvanceRejects(s1, req, verdict);
      RejectedStays(Put(s1, req, Rejected), req, verdict);
    }
  }

  lemma AdvanceRejects(s: State, req: nat, verdict: Option<int>)
    requires req in s.requests && s.requests[req].Loaded? && s.requests[req].user in s.users
    requires verdict.None? || !Newer(s.users[s.requests[req].user].lastStep, verdict.value)
    ensures Next(s, Advance(req, verdict)) == Put(s, req, Rejected)
  {
  }

  /** Any other code is checked as a recovery code only. */
  lemma RecoveryChecked(s: State, req: nat, verdict: Option<int>)
    requires req in s.requests && s.requests[req].Presented? && s.requests[req].user in s.users
    requires !SixDigits(s.requests[req].code)
    ensures Next(s, Load(req)) == s && Next(s, Advance(req, verdict)) == s
    ensures var s' := Next(s, Recover(req));
            && req in s'.requests
            && (s'.requests[req].Proved? || (s'.requests[req].Rejected? && Next(s', Finish(req)) == s'))
  {
    hide SixDigits, Newer;
  }

  lemma LoginMints(s: State, a: nat, u: string, ch: string, now: int)
    requires u in s.users && !s.users[u].enabled && a !in s.requests
    ensures Next(Next(s, Login(a, u)), Answer(a, ch, now)) == Put(s, a, Session(u, Direct))
  {
    assert s.requests[a := Checked(u, false)][a := Session(u, Direct)] == s.requests[a := Session(u, Direct)];
  }

  lemma SetsUp(s: State, req: nat, u: string, secret: string)
    requires u in s.users && req !in s.requests
    ensures Next(Next(s, BeginSetup(req, u)), Stage(req, secret))
         == if s.users[u].enabled then Put(s, req, Rejected)
            else Put(SaveUser(s, u, s.users[u].(secret := Some(secret), enabled := false)), req, Staged(u))
  {
    assert s.requests[req := MayStage(u)][req := Staged(u)] == s.requests[req := Staged(u)];
  }

  lemma FinishesSignIn(s: State, req: nat)
    requires req in s.requests && s.requests[req].Proved? && s.requests[req].goal.SignIn?
    ensures var r := s.requests[req];
            Next(s, Finish(req)) == Put(s, req, Session(r.user, ViaMfa(r.goal.challenge, r.factor)))
  {
  }

  lemma FinishesTurnOff(s: State, req: nat)
    requires req in s.requests && s.requests[req].Proved? && s.requests[req].goal.TurnOff? && s.requests[req].user in s.users
    ensures var r := s.requests[req];
            Next(s, Finish(req))
            == Put(SaveUser(s, r.user, s.users[r.user].(secret := None, enabled := false))
                   .(codes := WithoutCodes(s.codes, r.user)), req, TurnedOff(r.user, r.factor))
  {
  }

  lemma Enables(s: State, req: nat, u: string, valid: bool, batch: set<string>)
    requires u in s.users && req !in s.requests && |batch| == RECOVERY_CODE_COUNT && batch !! s.made
    ensures Run(s, [BeginEnable(req, u), LoadStaged(req), Confirm(req, valid, batch)])
         == if s.users[u].enabled || s.users[u].secret.None? || !valid then Put(s, req, Rejected)
            else Put(SaveUser(s, u, s.users[u].(enabled := true, lastStep := None, epoch := s.users[u].epoch + 1))
                     .(codes := WithoutCodes(s.codes, u) + FreshCodes(batch, u), made := s.made + batch),
                     req, Enrolled(u))
  {
    hide Next, WithoutCodes, FreshCodes;
    FoldThree(Next, s, BeginEnable(req, u), LoadStaged(req), Confirm(req, valid, batch));
    if s.users[u].enabled {
      EnableRefused(s, req, u, valid, batch);
    } else {
      var s1 := Put(s, req, MayEnable(u));
      EnableBegins(s, req, u);
      if s.users[u].secret.Some? {
        var s2 := Put(s, req, Confirming(u, s.users[u].secret.value));
        assert s1.requests[req := Confirming(u, s.users[u].secret.value)] == s2.requests;
        StagedLoads(s1, req, u);
        assert s2.requests[req := Enrolled(u)] == s.requests[req := Enrolled(u)];
        assert s2.requests[req := Rejected] == s.requests[req := Rejected];
        if valid {
          Confirms(s2, req, u, batch);
        } else {
          ConfirmRefused(s2, req, batch);
        }
      } else {
        NothingStaged(s1, req, u, valid, batch);
        assert s1.requests[req := Rejected] == s.requests[req := Rejected];
      }
    }
  }

  lemma EnableRefused(s: State, req: nat, u: string, valid: bool, batch: set<string>)
    requires req !in s.requests && u in s.users && s.users[u].enabled
    ensures Next(s, BeginEnable(req, u)) == Put(s, req, Rejected)
    ensures var s' := Put(s, req, Rejected);
            Next(s', LoadStaged(req)) == s' && Next(s', Confirm(req, valid, batch)) == s'
  {
  }

  lemma NothingStaged(s: State, req: nat, u: string, valid: bool, batch: set<string>)
    requires req in s.requests && s.requests[req] == MayEnable(u) && u in s.users && s.users[u].secret.None?
    ensures Next(s, LoadStaged(req)) == Put(s, req, Rejected)
    ensures Next(Put(s, req, Rejected), Confirm(req, valid, batch)) == Put(s, req, Rejected)
  {
  }

  lemma ConfirmRefused(s: State, req: nat, batch: set<string>)
    requires req in s.requests && s.requests[req].Confirming?
    ensures Next(s, Confirm(req, false, batch)) == Put(s, req, Rejected)
  {
  }

  predicate ProvedFor(r: Request, user: string, goal: Goal) {
    r.Proved? && r.user == user && r.goal == goal
  }

  // -------------------------------------------------------------- the handle

  class Store {
    var users: map<string, User>
    var codes: map<string, CodeRow>
    const tables: C.Tables
    ghost var requests: map<nat, Request>
    ghost var accepted: seq<Accepted>
    ghost var made: set<string>
    ghost var spent: map<string, string>

    ghost function Contents(): State
      reads this, tables
    {
      State(users, codes, tables.challenges, requests, accepted, made, spent)
    }

    constructor (users: map<string, User>, tables: C.Tables)
      requires tables.challenges == map[]
      ensures this.tables == tables && Contents() == Initial(users)
    {
      this.users := map u | u in users :: users[u].(epoch := 0);
      this.tables, codes, requests := tables, map[], map[];
      accepted, made, spent := [], {}, map[];
    }

    /** Accepts a step only if it advances; the request `req` records how far it came. */
    method VerifyTotpForUser(req: nat, user: string, verdict: Option<int>) returns (ok: bool)
      requires user in users && req in requests && requests[req].Presented? && requests[req].user == user
      requires SixDigits(requests[req].code)
      modifies `users, `requests, `accepted
      ensures Contents() == Next(Next(old(Contents()), Load(req)), Advance(req, verdict))
      ensures ok <==> old(users)[user].secret.Some? && verdict.Some? && Newer(old(users)[user].lastStep, verdict.value)
      ensures req in requests && if ok then ProvedFor(requests[req], user, old(requests)[req].goal)
                                  else requests[req] == Rejected
      ensures users == if ok then old(users)[user := old(users)[user].(lastStep := verdict)] else old(users)
    {
      ghost var goal := requests[req].goal;
      var row := users[user];
      if row.secret.None? {
        requests := requests[req := Rejected];
        return false;
      }
      requests := requests[req := Loaded(user, goal, row.secret.value)];
      if verdict.None? {
        requests := requests[req := Rejected];
        return false;
      }
      if users[user].lastStep.None? || users[user].lastStep.value < verdict.value {
        ghost var a := Accepted(user, users[user].epoch, row.secret.value, verdict.value);
        users := users[user := users[user].(lastStep := verdict)];
        accepted := accepted + [a];
        requests := requests[req := Proved(user, goal, Totp(a))];
        ok := true;
      } else {
        requests := requests[req := Rejected];
        ok := false;
      }
    }

    method ConsumeRecoveryCode(req: nat, user: string, code: string) returns (ok: bool)
      requires req in requests && requests[req].Presented? && requests[req].user == user
      requires requests[req].code == code && !SixDigits(code)
      modifies `codes, `requests, `spent
      ensures Contents() == Next(old(Contents()), Recover(req))
      ensures ok <==> code in old(codes) && old(codes)[code] == CodeRow(user, false)
      ensures req in requests && if ok then ProvedFor(requests[req], user, old(requests)[req].goal)
                                  else requests[req] == Rejected
    {
      ghost var goal := requests[req].goal;
      if code in codes && codes[code].user == user && !codes[code].consumed {
        codes := codes[code := CodeRow(user, true)];
        spent := spent[code := user];
        requests := requests[req := Proved(user, goal, Recovery(code))];
        ok := true;
      } else {
        requests := requests[req := Rejected];
        ok := false;
      }
    }

    /** The choice both routes make: six digits are a TOTP, anything else a recovery code. */
    method CheckFactor(req: nat, user: string, code: string, verdict: Option<int>) returns (ok: bool)
      requires user in users && req in requests && requests[req].Presented? && requests[req].user == user
      requires requests[req].code == code
      modifies `users, `codes, `requests, `accepted, `spent
      ensures Contents() == Next(Next(Next(old(Contents()), Load(req)), Advance(req, verdict)), Recover(req))
      ensures req in requests && if ok then ProvedFor(requests[req], user, old(requests)[req].goal)
                                  else requests[req] == Rejected
      ensures users.Keys == old(users).Keys
    {
      hide Next, SixDigits;
      if SixDigits(code) {
        TotpChecked(Contents(), req, verdict);
        ok := VerifyTotpForUser(req, user, verdict);
      } else {
        RecoveryChecked(Contents(), req, verdict);
        ok := ConsumeRecoveryCode(req, user, code);
      }
    }

    /** The password or provider check has passed for `user`; mints a session or issues the challenge. */
    method SignInOrChallenge(req: nat, user: string, challenge: string, now: int) returns (minted: bool)
      requires user in users && req !in requests && challenge !in tables.challenges
      modifies tables`challenges, `requests
      ensures Contents() == Run(old(Contents()), [Login(req, user), Answer(req, challenge, now)])
      ensures req in requests && (minted <==> requests[req] == Session(user, Direct))
      ensures minted <==> !users[user].enabled
    {
      hide Next, Fold, C.Apply, C.ChallengeLive;
      FoldTwo(Next, Contents(), Login(req, user), Answer(req, challenge, now));
      if users[user].enabled {
        LoginIssues(Contents(), req, user, challenge, now);
        C.IssueApplies(tables.Contents(), challenge, user, now);
      } else {
        LoginMints(Contents(), req, user, challenge, now);
      }
      requests := requests[req := Checked(user, users[user].enabled)];
      if users[user].enabled {
        tables.IssueMfaChallenge(challenge, user, now);
        requests := requests[req := Issued(user, challenge)];
        minted := false;
      } else {
        requests := requests[req := Session(user, Direct)];
        minted := true;
      }
    }

    /** Consumes the challenge, if it is live, for the request that presents it. */
    method PresentChallenge(req: nat, challenge: string, code: string, now: int) returns (user: Option<string>)
      requires req !in requests && (challenge in tables.challenges ==> tables.challenges[challenge].user in users)
      modifies tables`challenges, `requests
      ensures Contents() == Next(old(Contents()), Present(req, challenge, code, now))
      ensures req in requests
      ensures if user.Some? then user.value in users && requests[req] == Presented(user.value, SignIn(challenge), code)
              else requests[req] == Rejected
    {
      hide Next;
      Presents(Contents(), req, challenge, code, now);
      user := tables.ConsumeMfaChallenge(challenge, now);
      requests := requests[req := if user.Some? then Presented(user.value, SignIn(challenge), code) else Rejected];
    }

    method LoginMfa(req: nat, challenge: string, code: string, now: int, verdict: Option<int>) returns (session: Option<string>)
      requires req !in requests && (challenge in tables.challenges ==> tables.challenges[challenge].user in users)
      modifies this, tables`challenges
      ensures Contents() == Run(old(Contents()), MfaSteps(req, challenge, code, now, verdict))
      ensures req in requests && (session.Some? <==> requests[req].Session?)
      ensures session.Some? ==> session.value == requests[req].user
    {
      hide Next, Fold, Newer, SixDigits;
      FoldFive(Next, Contents(), Present(req, challenge, code, now), Load(req), Advance(req, verdict), Recover(req), Finish(req));
      session := PresentChallenge(req, challenge, code, now);
      if session.None? {
        RejectedStays(Contents(), req, verdict);
        return;
      }
      var ok := CheckFactor(req, session.value, code, verdict);
      if !ok {
        RejectedStays(Contents(), req, verdict);
        return None;
      }
      FinishesSignIn(Contents(), req);
      requests := requests[req := Session(session.value, ViaMfa(challenge, requests[req].factor))];
    }

    method Setup(req: nat, user: string, secret: string) returns (ok: bool)
      requires user in users && req !in requests
      modifies `users, `requests
      ensures Contents() == Run(old(Contents()), [BeginSetup(req, user), Stage(req, secret)])
      ensures req in requests && (ok <==> requests[req] == Staged(user))
    {
      hide Next;
      FoldTwo(Next, Contents(), BeginSetup(req, user), Stage(req, secret));
      SetsUp(Contents(), req, user, secret);
      if users[user].enabled {
        requests := requests[req := Rejected];
        return false;
      }
      requests := requests[req := MayStage(user)];
      users := users[user := users[user].(secret := Some(secret), enabled := false)];
      requests := requests[req := Staged(user)];
      ok := true;
    }

    method EnableTotp(req: nat, user: string, valid: bool, batch: set<string>) returns (ok: bool)
      requires user in users && req !in requests && |batch| == RECOVERY_CODE_COUNT && batch !! made
      modifies `users, `codes, `requests, `made
      ensures Contents() == Run(old(Contents()), [BeginEnable(req, user), LoadStaged(req), Confirm(req, valid, batch)])
      ensures req in requests && (ok <==> requests[req] == Enrolled(user))
    {
      hide Fold, WithoutCodes, FreshCodes;
      Enables(Contents(), req, user, valid, batch);
      if users[user].enabled {
        requests := requests[req := Rejected];
        return false;
      }
      if users[user].secret.None? || !valid {
        requests := requests[req := Rejected];
        return false;
      }
      users := users[user := users[user].(enabled := true, lastStep := None, epoch := users[user].epoch + 1)];
      codes := WithoutCodes(codes, user);
      codes := codes + FreshCodes(batch, user);
      made := made + batch;
      requests := requests[req := Enrolled(user)];
      ok := true;
    }

    method DisableTotp(req: nat, user: string, code: string, verdict: Option<int>) returns (ok: bool)
      requires user in users && req !in requests
      modifies this
      ensures Contents() == Run(old(Contents()), [BeginDisable(req, user, code), Load(req), Advance(req, verdict),
                                                  Recover(req), Finish(req)])
      ensures req in requests && (ok <==> requests[req].TurnedOff?)
    {
      hide Next, Fold, WithoutCodes, Newer, SixDigits;
      ghost var s0 := Contents();
      FoldFive(Next, s0, BeginDisable(req, user, code), Load(req), Advance(req, verdict), Recover(req), Finish(req));
      DisableBegins(s0, req, user, code);
      if !users[user].enabled {
        requests := requests[req := Rejected];
        RejectedStays(Contents(), req, verdict);
        return false;
      }
      requests := requests[req := Presented(user, TurnOff, code)];
      assert Contents() == Next(s0, BeginDisable(req, user, code));
      ok := CheckFactor(req, user, code, verdict);
      if !ok {
        RejectedStays(Contents(), req, verdict);
        return;
      }
      TurnOffProved(req, user);
    }

    /** The transaction that turns the factor off once it was proved. */
    method TurnOffProved(req: nat, user: string)
      requires user in users && req in requests && ProvedFor(requests[req], user, TurnOff)
      modifies `users, `codes, `requests
      ensures Contents() == Next(old(Contents()), Finish(req))
      ensures req in requests && requests[req].TurnedOff?
    {
      hide Next, WithoutCodes;
      FinishesTurnOff(Contents(), req);
      users := users[user := users[user].(secret := None, enabled := false)];
      codes := WithoutCodes(codes, user);
      requests := requests[req := TurnedOff(user, requests[req].factor)];
    }
  }
}
