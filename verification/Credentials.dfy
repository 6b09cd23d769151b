/**
 Single-use tokens, MFA challenges, sessions and OAuth flows, and the purge that
 deletes what is spent. Times are in ms; a credential is known by its hash.
 */
module Credentials {
  import opened Prelude

  const HOUR := 3_600_000
  const MINUTE := 60_000
  const MFA_CHALLENGE_TTL := 10 * MINUTE
  const SESSION_ABSOLUTE := 30 * 24 * HOUR
  const SESSION_IDLE := 14 * 24 * HOUR
  const TOUCH_INTERVAL := 5 * MINUTE
  const FLOW_TTL := 10 * MINUTE
  const SNS_RETENTION := 7 * 24 * HOUR

  datatype Purpose = VerifyEmail | ResetPassword

  datatype Token = Token(user: string, purpose: Purpose, expires: int, consumed: Option<int>)

  datatype Challenge = Challenge(user: string, expires: int, consumed: Option<int>)

  datatype Session = Session(id: string, user: string, created: int, lastSeen: int, expires: int, revoked: Option<int>)

  datatype Flow = Flow(provider: string, verifier: string, nonce: Option<string>, expires: int)

  /** The five tables the purge works on, by their unique keys. */
  datatype Store = Store(tokens: map<string, Token>, challenges: map<string, Challenge>,
                         sessions: map<string, Session>, flows: map<string, Flow>, sns: map<string, int>)

  datatype Op =
    | IssueToken(hash: string, user: string, purpose: Purpose, ttlHours: nat)
    | ConsumeToken(hash: string, purpose: Purpose)
    | IssueChallenge(hash: string, user: string)
    | ConsumeChallenge(hash: string)
    | CreateSession(hash: string, id: string, user: string)
    | FindLiveSession(hash: string)
    | ListLiveSessions(user: string)
    | RevokeSession(id: string, user: string)
    | RevokeAllSessions(user: string, spare: Option<string>)
    | StartFlow(state: string, flow: Flow)
    | ConsumeFlow(state: string, provider: string)
    | Purge

  /** What an operation answers; revocations answer nothing here. */
  datatype Result = Done | User(user: Option<string>) | Found(session: Option<Session>)
                  | Listed(sessions: set<Session>) | FlowFound(flow: Option<Flow>)

  predicate TokenLive(t: Token, purpose: Purpose, now: int) {
    t.purpose == purpose && t.consumed.None? && t.expires > now
  }

  predicate ChallengeLive(c: Challenge, now: int) {
    c.consumed.None? && c.expires > now
  }

  predicate SessionLive(s: Session, now: int) {
    s.revoked.None? && s.expires > now && s.lastSeen > now - SESSION_IDLE
  }

  /** Earlier unconsumed tokens of the same user and purpose are superseded. */
  function Supersede(t: Token, user: string, purpose: Purpose, now: int): Token {
    if t.user == user && t.purpose == purpose && t.consumed.None? then t.(consumed := Some(now)) else t
  }

  function Revoke(s: Session, now: int): Session {
    if s.revoked.None? then s.(revoked := Some(now)) else s
  }

  /** The rows a purge keeps. */
  predicate TokenKept(t: Token, now: int) {
    t.expires >= now && t.consumed.None?
  }

  predicate ChallengeKept(c: Challenge, now: int) {
    c.expires >= now && c.consumed.None?
  }

  function KeepTokens(m: map<string, Token>, now: int): map<string, Token> {
    map h | h in m && TokenKept(m[h], now) :: m[h]
  }

  function KeepChallenges(m: map<string, Challenge>, now: int): map<string, Challenge> {
    map h | h in m && ChallengeKept(m[h], now) :: m[h]
  }

  function KeepSessions(m: map<string, Session>, now: int): map<string, Session> {
    map h | h in m && m[h].expires >= now :: m[h]
  }

  function KeepFlows(m: map<string, Flow>, now: int): map<string, Flow> {
    map f | f in m && m[f].expires >= now :: m[f]
  }

  function KeepSns(m: map<string, int>, now: int): map<string, int> {
    map i | i in m && m[i] >= now - SNS_RETENTION :: m[i]
  }

  function Purged(st: Store, now: int): Store {
    Store(KeepTokens(st.tokens, now), KeepChallenges(st.challenges, now), KeepSessions(st.sessions, now),
          KeepFlows(st.flows, now), KeepSns(st.sns, now))
  }

  function SupersedeAll(m: map<string, Token>, user: string, purpose: Purpose, now: int): map<string, Token> {
    map h | h in m :: Supersede(m[h], user, purpose, now)
  }

  /** Revokes the user's sessions, only the one named or all but the one spared. */
  function RevokeWhere(m: map<string, Session>, user: string, only: Option<string>, spare: Option<string>, now: int)
    : map<string, Session>
  {
    map h | h in m ::
      if m[h].user == user && (only.None? || m[h].id == only.value) && (spare.None? || m[h].id != spare.value)
      then Revoke(m[h], now) else m[h]
  }

  function Apply(st: Store, op: Op, now: int): (Result, Store) {
    match op
    case IssueToken(h, user, purpose, ttl) =>
      (Done, st.(tokens := SupersedeAll(st.tokens, user, purpose, now)[h := Token(user, purpose, now + ttl * HOUR, None)]))
    case ConsumeToken(h, purpose) =>
      if h in st.tokens && TokenLive(st.tokens[h], purpose, now)
      then (User(Some(st.tokens[h].user)), st.(tokens := st.tokens[h := st.tokens[h].(consumed := Some(now))]))
      else (User(None), st)
    case IssueChallenge(h, user) =>
      (Done, st.(challenges := st.challenges[h := Challenge(user, now + MFA_CHALLENGE_TTL, None)]))
    case ConsumeChallenge(h) =>
      if h in st.challenges && ChallengeLive(st.challenges[h], now)
      then (User(Some(st.challenges[h].user)),
            st.(challenges := st.challenges[h := st.challenges[h].(consumed := Some(now))]))
      else (User(None), st)
    case CreateSession(h, id, user) =>
      (Done, st.(sessions := st.sessions[h := Session(id, user, now, now, now + SESSION_ABSOLUTE, None)]))
    case FindLiveSession(h) =>
      if h in st.sessions && SessionLive(st.sessions[h], now) then
        var s := st.sessions[h];
        (Found(Some(s)),
         if s.lastSeen < now - TOUCH_INTERVAL then st.(sessions := st.sessions[h := s.(lastSeen := now)]) else st)
      else (Found(None), st)
    case ListLiveSessions(user) =>
      (Listed(set h | h in st.sessions && st.sessions[h].user == user && SessionLive(st.sessions[h], now) :: st.sessions[h]),
       st)
    case RevokeSession(id, user) => (Done, st.(sessions := RevokeWhere(st.sessions, user, Some(id), None, now)))
    case RevokeAllSessions(user, spare) => (Done, st.(sessions := RevokeWhere(st.sessions, user, None, spare, now)))
    case StartFlow(state, flow) => (Done, st.(flows := st.flows[state := flow.(expires := now + FLOW_TTL)]))
    case ConsumeFlow(state, provider) =>
      if state in st.flows && st.flows[state].provider == provider && st.flows[state].expires > now
      then (FlowFound(Some(st.flows[state])), st.(flows := st.flows - {state}))
      else (FlowFound(None), st)
    case Purge => (Done, Purged(st, now))
  }

  /** A newly issued hash, or flow state, has no row yet. */
  predicate FreshFor(st: Store, op: Op) {
    match op
    case IssueToken(h, _, _, _) => h !in st.tokens
    case IssueChallenge(h, _) => h !in st.challenges
    case CreateSession(h, _, _) => h !in st.sessions
    case StartFlow(state, _) => state !in st.flows
    case _ => true
  }

  datatype Timed = Timed(op: Op, now: int)

  /** The results of a run, one per operation that is not a purge. */
  function Observe(st: Store, run: seq<Timed>): seq<Result>
    decreases |run|
  {
    if run == [] then
      []
    else
      var (result, st') := Apply(st, run[0].op, run[0].now);
      (if run[0].op.Purge? then [] else [result]) + Observe(st', run[1..])
  }

  function WithoutPurges(run: seq<Timed>): seq<Timed> {
    if run == [] then [] else (if run[0].op.Purge? then [] else [run[0]]) + WithoutPurges(run[1..])
  }

  /**
   No lookup is dated a millisecond or more short of a purge before it, and hashes are
   fresh, along the run without its purges. `clock` is the latest purge so far; the
   clock of everything else may go back and forth.
   */
  predicate Proper(st: Store, run: seq<Timed>, clock: int)
    decreases |run|
  {
    run == [] ||
    (if run[0].op.Purge? then Proper(st, run[1..], Latest(clock, run[0].now))
     else
       && run[0].now + 1 >= clock && FreshFor(st, run[0].op)
       && Proper(Apply(st, run[0].op, run[0].now).1, run[1..], clock))
  }

  function Latest(a: int, b: int): int {
    if a < b then b else a
  }

  // ------------------------------------------------------------- simulation

  ghost predicate TokensSimulate(full: map<string, Token>, lean: map<string, Token>, clock: int) {
    && (forall h :: h in lean ==> h in full && full[h] == lean[h])
    && (forall h :: h in full && h !in lean ==> !TokenKept(full[h], clock))
  }

  ghost predicate ChallengesSimulate(full: map<string, Challenge>, lean: map<string, Challenge>, clock: int) {
    && (forall h :: h in lean ==> h in full && full[h] == lean[h])
    && (forall h :: h in full && h !in lean ==> !ChallengeKept(full[h], clock))
  }

  ghost predicate SessionsSimulate(full: map<string, Session>, lean: map<string, Session>, clock: int) {
    && (forall h :: h in lean ==> h in full && full[h] == lean[h])
    && (forall h :: h in full && h !in lean ==> full[h].expires < clock)
  }

  ghost predicate FlowsSimulate(full: map<string, Flow>, lean: map<string, Flow>, clock: int) {
    && (forall f :: f in lean ==> f in full && full[f] == lean[f])
    && (forall f :: f in full && f !in lean ==> full[f].expires < clock)
  }

  /**
   `lean` is `full` with some rows gone, and each missing row is one no later
   lookup can find.
   */
  ghost predicate Simulates(full: Store, lean: Store, clock: int) {
    && TokensSimulate(full.tokens, lean.tokens, clock)
    && ChallengesSimulate(full.challenges, lean.challenges, clock)
    && SessionsSimulate(full.sessions, lean.sessions, clock)
    && FlowsSimulate(full.flows, lean.flows, clock)
  }

  /** A purge on one side only keeps the simulation. */
  lemma PurgeSimulates(full: Store, lean: Store, clock: int, now: int)
    requires Simulates(full, lean, clock)
    ensures Simulates(full, Purged(lean, now), Latest(clock, now))
  {
  }

  lemma RevokeSimulates(full: map<string, Session>, lean: map<string, Session>, user: string, only: Option<string>,
                        spare: Option<string>, clock: int, now: int)
    requires SessionsSimulate(full, lean, clock)
    ensures SessionsSimulate(RevokeWhere(full, user, only, spare, now), RevokeWhere(lean, user, only, spare, now), clock)
  {
  }

  lemma TokenOpSimulates(full: Store, lean: Store, clock: int, op: Op, now: int)
    requires Simulates(full, lean, clock) && clock <= now + 1 && FreshFor(full, op)
    requires op.IssueToken? || op.ConsumeToken?
    ensures Apply(lean, op, now).0 == Apply(full, op, now).0
    ensures Simulates(Apply(full, op, now).1, Apply(lean, op, now).1, clock)
  {
    hide ChallengesSimulate, SessionsSimulate, FlowsSimulate;
  }

  lemma SessionOpSimulates(full: Store, lean: Store, clock: int, op: Op, now: int)
    requires Simulates(full, lean, clock) && clock <= now + 1 && FreshFor(full, op)
    requires op.CreateSession? || op.FindLiveSession? || op.RevokeSession? || op.RevokeAllSessions?
    ensures Apply(lean, op, now).0 == Apply(full, op, now).0
    ensures Simulates(Apply(full, op, now).1, Apply(lean, op, now).1, clock)
  {
    hide ChallengesSimulate, TokensSimulate, FlowsSimulate, RevokeWhere;
    if op.RevokeSession? {
      RevokeSimulates(full.sessions, lean.sessions, op.user, Some(op.id), None, clock, now);
    } else if op.RevokeAllSessions? {
      RevokeSimulates(full.sessions, lean.sessions, op.user, None, op.spare, clock, now);
    }
  }

  lemma ListingSimulates(full: Store, lean: Store, clock: int, user: string, now: int)
    requires Simulates(full, lean, clock) && clock <= now + 1
    ensures Apply(lean, ListLiveSessions(user), now).0 == Apply(full, ListLiveSessions(user), now).0
  {
    hide ChallengesSimulate, TokensSimulate, FlowsSimulate;
  }

  lemma ChallengeOpSimulates(full: Store, lean: Store, clock: int, op: Op, now: int)
    requires Simulates(full, lean, clock) && clock <= now + 1 && FreshFor(full, op)
    requires op.IssueChallenge? || op.ConsumeChallenge?
    ensures Apply(lean, op, now).0 == Apply(full, op, now).0
    ensures Simulates(Apply(full, op, now).1, Apply(lean, op, now).1, clock)
  {
    hide TokensSimulate, SessionsSimulate, FlowsSimulate;
  }

  lemma FlowOpSimulates(full: Store, lean: Store, clock: int, op: Op, now: int)
    requires Simulates(full, lean, clock) && clock <= now + 1 && FreshFor(full, op)
    requires op.StartFlow? || op.ConsumeFlow?
    ensures Apply(lean, op, now).0 == Apply(full, op, now).0
    ensures Simulates(Apply(full, op, now).1, Apply(lean, op, now).1, clock)
  {
    hide TokensSimulate, SessionsSimulate, ChallengesSimulate;
  }

  lemma OpSimulates(full: Store, lean: Store, clock: int, op: Op, now: int)
    requires Simulates(full, lean, clock) && clock <= now + 1 && FreshFor(full, op) && !op.Purge?
    ensures Apply(lean, op, now).0 == Apply(full, op, now).0
    ensures Simulates(Apply(full, op, now).1, Apply(lean, op, now).1, clock)
  {
    hide Simulates, FreshFor;
    if op.IssueToken? || op.ConsumeToken? {
      TokenOpSimulates(full, lean, clock, op, now);
    } else if op.ListLiveSessions? {
      ListingSimulates(full, lean, clock, op.user, now);
    } else if op.CreateSession? || op.FindLiveSession? || op.RevokeSession? || op.RevokeAllSessions? {
      SessionOpSimulates(full, lean, clock, op, now);
    } else if op.IssueChallenge? || op.ConsumeChallenge? {
      ChallengeOpSimulates(full, lean, clock, op, now);
    } else {
      FlowOpSimulates(full, lean, clock, op, now);
    }
  }

  lemma {:induction false} RunsAgree(full: Store, lean: Store, run: seq<Timed>, clock: int)
    requires Simulates(full, lean, clock) && Proper(full, run, clock)
    ensures Observe(lean, run) == Observe(full, WithoutPurges(run))
    decreases |run|
  {
    hide Simulates, Apply, FreshFor, Latest;
    if run != [] {
      var op, now := run[0].op, run[0].now;
      if op.Purge? {
        PurgeApplies(lean, now);
        PurgeSimulates(full, lean, clock, now);
        RunsAgree(full, Purged(lean, now), run[1..], Latest(clock, now));
        assert WithoutPurges(run) == WithoutPurges(run[1..]);
        assert Observe(lean, run) == Observe(Purged(lean, now), run[1..]);
      } else {
        OpSimulates(full, lean, clock, op, now);
        var full', lean' := Apply(full, op, now).1, Apply(lean, op, now).1;
        RunsAgree(full', lean', run[1..], clock);
        assert WithoutPurges(run) == [run[0]] + WithoutPurges(run[1..]);
        assert WithoutPurges(run)[0] == run[0] && WithoutPurges(run)[1..] == WithoutPurges(run[1..]);
        assert Observe(lean, run) == [Apply(lean, op, now).0] + Observe(lean', run[1..]);
        assert Observe(full, WithoutPurges(run))
            == [Apply(full, op, now).0] + Observe(full', WithoutPurges(run)[1..]);
      }
    }
  }

  lemma IssueApplies(st: Store, h: string, user: string, now: int)
    ensures Apply(st, IssueChallenge(h, user), now)
         == (Done, st.(challenges := st.challenges[h := Challenge(user, now + MFA_CHALLENGE_TTL, None)]))
  {
  }

  lemma PurgeApplies(st: Store, now: int)
    ensures Apply(st, Purge, now) == (Done, Purged(st, now))
  {
  }

  /** Purges anywhere in a run leave every other operation's result as it would have been. */
  lemma PurgeIsInvisible(st: Store, run: seq<Timed>, clock: int)
    requires Proper(st, run, clock)
    ensures Observe(st, run) == Observe(st, WithoutPurges(run))
  {
    RunsAgree(st, st, run, clock);
  }

  /** The operations that look a credential up. */
  predicate LooksUp(op: Op) {
    op.ConsumeToken? || op.ConsumeChallenge? || op.FindLiveSession? || op.ListLiveSessions? || op.ConsumeFlow?
  }

  /** A purge at `p`, then a lookup dated `t`. */
  function PurgeThen(p: int, op: Op, t: int): seq<Timed> {
    [Timed(Purge, p), Timed(op, t)]
  }

  lemma TwoResults(st: Store, p: int, op: Op, t: int)
    requires !op.Purge?
    ensures Observe(st, PurgeThen(p, op, t)) == [Apply(Purged(st, p), op, t).0]
    ensures Observe(st, WithoutPurges(PurgeThen(p, op, t))) == [Apply(st, op, t).0]
  {
    hide Apply;
    PurgeApplies(st, p);
    var run := PurgeThen(p, op, t);
    OneResult(Purged(st, p), Timed(op, t));
    OneResult(st, Timed(op, t));
    assert run[1..] == [Timed(op, t)] && run[1..][1..] == [];
    assert Observe(st, run) == [] + Observe(Purged(st, p), run[1..]);
    assert WithoutPurges(run[1..]) == [Timed(op, t)];
  }

  lemma OneResult(st: Store, x: Timed)
    requires !x.op.Purge?
    ensures Observe(st, [x]) == [Apply(st, x.op, x.now).0]
  {
    hide Apply;
    assert [x][1..] == [];
    assert Observe(Apply(st, x.op, x.now).1, []) == [];
  }

  /** Tables with one row, which the lookup finds at `t` and no later than that. */
  function OneRow(op: Op, t: int): Store {
    match op
    case ConsumeToken(h, purpose) => Store(map[h := Token("", purpose, t + 1, None)], map[], map[], map[], map[])
    case ConsumeChallenge(h) => Store(map[], map[h := Challenge("", t + 1, None)], map[], map[], map[])
    case FindLiveSession(h) => Store(map[], map[], map[h := Session("", "", t, t, t + 1, None)], map[], map[])
    case ListLiveSessions(user) => Store(map[], map[], map["" := Session("", user, t, t, t + 1, None)], map[], map[])
    case ConsumeFlow(state, provider) => Store(map[], map[], map[], map[state := Flow(provider, "", None, t + 1)], map[])
    case _ => Store(map[], map[], map[], map[], map[])
  }

  /** An earlier-dated lookup finds the row, and does not find it after the purge. */
  lemma PurgeHidesRow(op: Op, p: int, t: int)
    requires LooksUp(op) && t + 1 < p
    ensures Apply(OneRow(op, t), op, t).0 != Apply(Purged(OneRow(op, t), p), op, t).0
  {
    hide RevokeWhere, SupersedeAll;
    var st := OneRow(op, t);
    if op.ListLiveSessions? {
      assert st.sessions[""] in Apply(st, op, t).0.sessions;
      assert Apply(Purged(st, p), op, t).0.sessions == {};
    }
  }

  /**
   The clock condition is exact for every lookup, of a token, a challenge, a session, the
   session list or an OAuth flow: a purge hides nothing from it, whatever the tables hold,
   if and only if it is dated no more than a millisecond before the purge.
   */
  lemma PurgeInvisibleIffDated(op: Op, p: int, t: int)
    requires LooksUp(op)
    ensures (forall st :: Observe(st, PurgeThen(p, op, t)) == Observe(st, WithoutPurges(PurgeThen(p, op, t))))
       <==> t + 1 >= p
  {
    hide Observe, WithoutPurges, Apply, OneRow;
    if t + 1 >= p {
      forall st ensures Observe(st, PurgeThen(p, op, t)) == Observe(st, WithoutPurges(PurgeThen(p, op, t))) {
        assert PurgeThen(p, op, t)[1..] == [Timed(op, t)] && [Timed(op, t)][1..] == [];
        assert Proper(st, [Timed(op, t)], p);
        PurgeIsInvisible(st, PurgeThen(p, op, t), p);
      }
    } else {
      TwoResults(OneRow(op, t), p, op, t);
      PurgeHidesRow(op, p, t);
    }
  }

  /** A token or challenge is accepted at most once: consuming it again answers nobody. */
  lemma ConsumedOnce(st: Store, op: Op, now: int, later: int)
    requires (op.ConsumeToken? || op.ConsumeChallenge?) && Apply(st, op, now).0.user.Some?
    ensures Apply(Apply(st, op, now).1, op, later) == (User(None), Apply(st, op, now).1)
  {
  }

  /** A flow is handed out at most once, and with it goes its row. */
  lemma FlowConsumedOnce(st: Store, state: string, provider: string, now: int, again: string, later: int)
    requires Apply(st, ConsumeFlow(state, provider), now).0.flow.Some?
    ensures var st' := Apply(st, ConsumeFlow(state, provider), now).1;
            && state !in st'.flows && st' == st.(flows := st.flows - {state})
            && Apply(st', ConsumeFlow(state, again), later) == (FlowFound(None), st')
  {
  }

  // -------------------------------------------------------------- the handle

  datatype PurgeCounts = PurgeCounts(sessions: nat, tokens: nat, challenges: nat, flows: nat, sns: nat)

  class Tables {
    var tokens: map<string, Token>
    var challenges: map<string, Challenge>
    var sessions: map<string, Session>
    var flows: map<string, Flow>
    var sns: map<string, int>

    function Contents(): Store
      reads this
    {
      Store(tokens, challenges, sessions, flows, sns)
    }

    constructor ()
      ensures Contents() == Store(map[], map[], map[], map[], map[])
    {
      tokens, challenges, sessions, flows, sns := map[], map[], map[], map[], map[];
    }

    /** The deletes, in order; each count is of the rows its table lost. */
    method PurgeExpired(now: int) returns (counts: PurgeCounts)
      modifies this
      ensures Contents() == Purged(old(Contents()), now)
      ensures counts.sessions == old(|sessions|) - |sessions| && counts.tokens == old(|tokens|) - |tokens|
      ensures counts.challenges == old(|challenges|) - |challenges| && counts.flows == old(|flows|) - |flows|
      ensures counts.sns == old(|sns|) - |sns|
    {
      var before := Contents();
      FewerRows(sessions, KeepSessions(sessions, now));
      FewerRows(tokens, KeepTokens(tokens, now));
      FewerRows(challenges, KeepChallenges(challenges, now));
      FewerRows(flows, KeepFlows(flows, now));
      FewerRows(sns, KeepSns(sns, now));
      sessions := KeepSessions(sessions, now);
      tokens := KeepTokens(tokens, now);
      challenges := KeepChallenges(challenges, now);
      flows := KeepFlows(flows, now);
      sns := KeepSns(sns, now);
      counts := PurgeCounts(|before.sessions| - |sessions|, |before.tokens| - |tokens|,
                            |before.challenges| - |challenges|, |before.flows| - |flows|, |before.sns| - |sns|);
    }

    method IssueAuthToken(hash: string, user: string, purpose: Purpose, ttlHours: nat, now: int)
      modifies `tokens
      ensures (Done, Contents()) == Apply(old(Contents()), IssueToken(hash, user, purpose, ttlHours), now)
    {
      tokens := SupersedeAll(tokens, user, purpose, now);
      tokens := tokens[hash := Token(user, purpose, now + ttlHours * HOUR, None)];
    }

    method ConsumeAuthToken(hash: string, purpose: Purpose, now: int) returns (user: Option<string>)
      modifies `tokens
      ensures (User(user), Contents()) == Apply(old(Contents()), ConsumeToken(hash, purpose), now)
    {
      if hash in tokens && TokenLive(tokens[hash], purpose, now) {
        user := Some(tokens[hash].user);
        tokens := tokens[hash := tokens[hash].(consumed := Some(now))];
      } else {
        user := None;
      }
    }

    method ConsumeMfaChallenge(hash: string, now: int) returns (user: Option<string>)
      modifies `challenges
      ensures (User(user), Contents()) == Apply(old(Contents()), ConsumeChallenge(hash), now)
    {
      if hash in challenges && ChallengeLive(challenges[hash], now) {
        user := Some(challenges[hash].user);
        challenges := challenges[hash := challenges[hash].(consumed := Some(now))];
      } else {
        user := None;
      }
    }

    method FindSession(hash: string, now: int) returns (session: Option<Session>)
      modifies `sessions
      ensures (Found(session), Contents()) == Apply(old(Contents()), FindLiveSession(hash), now)
    {
      if hash !in sessions || !SessionLive(sessions[hash], now) {
        return None;
      }
      session := Some(sessions[hash]);
      if sessions[hash].lastSeen < now - TOUCH_INTERVAL {
        sessions := sessions[hash := sessions[hash].(lastSeen := now)];
      }
    }

    /** The new challenge lives for ten minutes, unless it is consumed; every other one is as it was. */
    method IssueMfaChallenge(hash: string, user: string, now: int)
      modifies `challenges
      ensures (Done, Contents()) == Apply(old(Contents()), IssueChallenge(hash, user), now)
      ensures challenges.Keys == old(challenges).Keys + {hash} && challenges[hash].user == user
      ensures forall t :: ChallengeLive(challenges[hash], t) <==> t < now + MFA_CHALLENGE_TTL
      ensures forall h :: h in old(challenges) && h != hash ==> challenges[h] == old(challenges)[h]
    {
      challenges := challenges[hash := Challenge(user, now + MFA_CHALLENGE_TTL, None)];
    }

    /** The new session lives as long as an unused one may be idle; every other one is as it was. */
    method MintSession(hash: string, id: string, user: string, now: int)
      modifies `sessions
      ensures (Done, Contents()) == Apply(old(Contents()), CreateSession(hash, id, user), now)
      ensures sessions.Keys == old(sessions).Keys + {hash} && sessions[hash].user == user && sessions[hash].id == id
      ensures forall t :: SessionLive(sessions[hash], t) <==> t < now + SESSION_IDLE
      ensures forall h :: h in old(sessions) && h != hash ==> sessions[h] == old(sessions)[h]
    {
      sessions := sessions[hash := Session(id, user, now, now, now + SESSION_ABSOLUTE, None)];
    }

    /** From now on the session of that id and user is dead at every time; every other one lives exactly when it did. */
    method RevokeOne(id: string, user: string, now: int)
      modifies `sessions
      ensures (Done, Contents()) == Apply(old(Contents()), RevokeSession(id, user), now)
      ensures sessions.Keys == old(sessions).Keys
      ensures forall h, t :: h in sessions ==>
                (SessionLive(sessions[h], t) <==>
                   SessionLive(old(sessions)[h], t) && !(old(sessions)[h].user == user && old(sessions)[h].id == id))
    {
      sessions := RevokeWhere(sessions, user, Some(id), None, now);
    }

    /** Of the user's sessions only the spared one still lives; the sessions of others live exactly when they did. */
    method RevokeAll(user: string, spare: Option<string>, now: int)
      modifies `sessions
      ensures (Done, Contents()) == Apply(old(Contents()), RevokeAllSessions(user, spare), now)
      ensures sessions.Keys == old(sessions).Keys
      ensures forall h, t :: h in sessions ==>
                (SessionLive(sessions[h], t) <==>
                   SessionLive(old(sessions)[h], t)
                   && (old(sessions)[h].user != user || spare == Some(old(sessions)[h].id)))
    {
      sessions := RevokeWhere(sessions, user, None, spare, now);
    }

    method ConsumeOAuthFlow(state: string, provider: string, now: int) returns (flow: Option<Flow>)
      modifies `flows
      ensures (FlowFound(flow), Contents()) == Apply(old(Contents()), ConsumeFlow(state, provider), now)
    {
      if state in flows && flows[state].provider == provider && flows[state].expires > now {
        flow := Some(flows[state]);
        flows := flows - {state};
      } else {
        flow := None;
      }
    }
  }

  lemma FewerRows<V>(a: map<string, V>, b: map<string, V>)
    requires b.Keys <= a.Keys
    ensures |b| <= |a|
  {
    assert a.Keys == b.Keys + (a.Keys - b.Keys);
    assert |a.Keys| == |a| && |b.Keys| == |b|;
  }
}
