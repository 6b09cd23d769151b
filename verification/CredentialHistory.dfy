/**
 Which lookups succeed, told from the history of a run alone: no table is mentioned,
 only what was issued, used, superseded, consumed or revoked, and when. Purges may
 come anywhere.
 */
module CredentialHistory {
  import opened Prelude
  import opened Credentials

  function StoreAfter(run: seq<Timed>): Store {
    if run == [] then Store(map[], map[], map[], map[], map[])
    else Apply(StoreAfter(run[..|run| - 1]), run[|run| - 1].op, run[|run| - 1].now).1
  }

  /** The clock never goes back, up to `now`. */
  predicate Clocked(run: seq<Timed>, now: int) {
    && (forall i, j :: 0 <= i < j < |run| ==> run[i].now <= run[j].now)
    && (forall i :: 0 <= i < |run| ==> run[i].now <= now)
  }

  /** Hashes of fresh random values, and random flow states, are never issued twice. */
  predicate IssuedOnce(run: seq<Timed>) {
    forall i, j :: 0 <= i < j < |run| ==>
      && (run[i].op.IssueToken? && run[j].op.IssueToken? ==> run[i].op.hash != run[j].op.hash)
      && (run[i].op.IssueChallenge? && run[j].op.IssueChallenge? ==> run[i].op.hash != run[j].op.hash)
      && (run[i].op.CreateSession? && run[j].op.CreateSession? ==> run[i].op.hash != run[j].op.hash)
      && (run[i].op.StartFlow? && run[j].op.StartFlow? ==> run[i].op.state != run[j].op.state)
  }

  lemma Shorter(run: seq<Timed>, now: int)
    requires run != [] && Clocked(run, now) && IssuedOnce(run)
    ensures Clocked(run[..|run| - 1], run[|run| - 1].now) && IssuedOnce(run[..|run| - 1])
  {
  }

  // ----------------------------------------------------------------- tokens

  /** A newer token of the user and purpose, or an attempt to consume this one. */
  predicate Spends(op: Op, h: string, user: string, purpose: Purpose) {
    || (op.IssueToken? && op.user == user && op.purpose == purpose)
    || (op.ConsumeToken? && op.hash == h && op.purpose == purpose)
  }

  predicate Unspent(run: seq<Timed>, h: string, user: string, purpose: Purpose, expires: int, i: int) {
    && 0 <= i < |run| && run[i].op.IssueToken? && run[i].op.hash == h && run[i].op.user == user
    && run[i].op.purpose == purpose && run[i].now + run[i].op.ttlHours * HOUR == expires
    && forall j :: i < j < |run| ==> !Spends(run[j].op, h, user, purpose)
  }

  lemma {:induction false} TokenTracks(run: seq<Timed>, now: int, h: string, user: string, purpose: Purpose, expires: int)
    requires Clocked(run, now) && IssuedOnce(run) && expires > now
    ensures (h in StoreAfter(run).tokens && StoreAfter(run).tokens[h] == Token(user, purpose, expires, None))
       <==> exists i :: Unspent(run, h, user, purpose, expires, i)
    decreases |run|
  {
    if run != [] {
      var n := |run| - 1;
      Shorter(run, now);
      TokenTracks(run[..n], run[n].now, h, user, purpose, expires);
      TokenStep(StoreAfter(run[..n]), run[n].op, run[n].now, h, user, purpose, expires);
      if i :| Unspent(run[..n], h, user, purpose, expires, i) {
        assert Spends(run[n].op, h, user, purpose) || Unspent(run, h, user, purpose, expires, i);
        assert run[i].op.IssueToken?;
      }
      if i :| Unspent(run, h, user, purpose, expires, i) {
        assert i == n || Unspent(run[..n], h, user, purpose, expires, i);
      }
      if run[n].op.IssueToken? && run[n].op.hash == h && run[n].op.user == user && run[n].op.purpose == purpose
         && run[n].now + run[n].op.ttlHours * HOUR == expires {
        assert Unspent(run, h, user, purpose, expires, n);
      }
    }
  }

  /** One operation: the row appears by its own issue, and survives what does not spend it. */
  lemma TokenStep(st: Store, op: Op, now: int, h: string, user: string, purpose: Purpose, expires: int)
    requires expires > now
    ensures var t, t' := st.tokens, Apply(st, op, now).1.tokens;
            var row := Token(user, purpose, expires, None);
            (h in t' && t'[h] == row) <==>
            if op.IssueToken? && op.hash == h
            then op.user == user && op.purpose == purpose && now + op.ttlHours * HOUR == expires
            else h in t && t[h] == row && !Spends(op, h, user, purpose)
  {
  }

  /**
   A token is accepted for a user exactly when it is the newest one issued to that
   user for that purpose, is presented for the first time, and is in date.
   */
  lemma AcceptedIffNewest(run: seq<Timed>, now: int, h: string, user: string, purpose: Purpose)
    requires Clocked(run, now) && IssuedOnce(run)
    ensures Apply(StoreAfter(run), ConsumeToken(h, purpose), now).0 == User(Some(user))
       <==> exists i, expires :: expires > now && Unspent(run, h, user, purpose, expires, i)
  {
    var t := StoreAfter(run).tokens;
    if h in t && TokenLive(t[h], purpose, now) {
      TokenTracks(run, now, h, t[h].user, purpose, t[h].expires);
    }
    if i, expires :| expires > now && Unspent(run, h, user, purpose, expires, i) {
      TokenTracks(run, now, h, user, purpose, expires);
    }
  }

  // ------------------------------------------------------------- challenges

  predicate Open(run: seq<Timed>, h: string, user: string, expires: int, i: int) {
    && 0 <= i < |run| && run[i].op.IssueChallenge? && run[i].op.hash == h && run[i].op.user == user
    && run[i].now + MFA_CHALLENGE_TTL == expires
    && forall j :: i < j < |run| ==> run[j].op != ConsumeChallenge(h)
  }

  lemma ChallengeStep(st: Store, op: Op, now: int, h: string, user: string, expires: int)
    requires expires > now
    ensures var c, c' := st.challenges, Apply(st, op, now).1.challenges;
            var row := Challenge(user, expires, None);
            (h in c' && c'[h] == row) <==>
            if op.IssueChallenge? && op.hash == h then op.user == user && now + MFA_CHALLENGE_TTL == expires
            else h in c && c[h] == row && op != ConsumeChallenge(h)
  {
  }

  lemma {:induction false} ChallengeTracks(run: seq<Timed>, now: int, h: string, user: string, expires: int)
    requires Clocked(run, now) && IssuedOnce(run) && expires > now
    ensures (h in StoreAfter(run).challenges && StoreAfter(run).challenges[h] == Challenge(user, expires, None))
       <==> exists i :: Open(run, h, user, expires, i)
    decreases |run|
  {
    if run != [] {
      var n := |run| - 1;
      Shorter(run, now);
      ChallengeTracks(run[..n], run[n].now, h, user, expires);
      ChallengeStep(StoreAfter(run[..n]), run[n].op, run[n].now, h, user, expires);
      if i :| Open(run[..n], h, user, expires, i) {
        assert run[n].op == ConsumeChallenge(h) || Open(run, h, user, expires, i);
        assert run[i].op.IssueChallenge?;
      }
      if i :| Open(run, h, user, expires, i) {
        assert i == n || Open(run[..n], h, user, expires, i);
      }
      if run[n].op.IssueChallenge? && run[n].op.hash == h && run[n].op.user == user
         && run[n].now + MFA_CHALLENGE_TTL == expires {
        assert Open(run, h, user, expires, n);
      }
    }
  }

  /** A challenge is accepted exactly when it is presented for the first time within ten minutes of its issue. */
  lemma ChallengeAcceptedIffOpen(run: seq<Timed>, now: int, h: string, user: string)
    requires Clocked(run, now) && IssuedOnce(run)
    ensures Apply(StoreAfter(run), ConsumeChallenge(h), now).0 == User(Some(user))
       <==> exists i, expires :: expires > now && Open(run, h, user, expires, i)
  {
    var c := StoreAfter(run).challenges;
    if h in c && ChallengeLive(c[h], now) {
      ChallengeTracks(run, now, h, c[h].user, c[h].expires);
    }
    if i, expires :| expires > now && Open(run, h, user, expires, i) {
      ChallengeTracks(run, now, h, user, expires);
    }
  }

  // ------------------------------------------------------------ OAuth flows

  /** The state was started at `i` with this flow, in date until `expires`, and its provider has not tried it since. */
  predicate Untried(run: seq<Timed>, state: string, flow: Flow, i: int) {
    && 0 <= i < |run| && run[i].op.StartFlow? && run[i].op.state == state
    && flow.provider == run[i].op.flow.provider && flow.verifier == run[i].op.flow.verifier
    && flow.nonce == run[i].op.flow.nonce && flow.expires == run[i].now + 600_000
    && forall j :: i < j < |run| ==> run[j].op != ConsumeFlow(state, flow.provider)
  }

  lemma FlowStep(st: Store, op: Op, now: int, state: string, flow: Flow)
    requires flow.expires > now
    ensures var f, f' := st.flows, Apply(st, op, now).1.flows;
            (state in f' && f'[state] == flow) <==>
            if op.StartFlow? && op.state == state then op.flow.(expires := now + 600_000) == flow
            else state in f && f[state] == flow && op != ConsumeFlow(state, flow.provider)
  {
  }

  lemma {:induction false} FlowTracks(run: seq<Timed>, now: int, state: string, flow: Flow)
    requires Clocked(run, now) && IssuedOnce(run) && flow.expires > now
    ensures (state in StoreAfter(run).flows && StoreAfter(run).flows[state] == flow)
       <==> exists i :: Untried(run, state, flow, i)
    decreases |run|
  {
    hide Apply;
    if run != [] {
      var n := |run| - 1;
      Shorter(run, now);
      FlowTracks(run[..n], run[n].now, state, flow);
      FlowStep(StoreAfter(run[..n]), run[n].op, run[n].now, state, flow);
      if i :| Untried(run[..n], state, flow, i) {
        assert run[n].op == ConsumeFlow(state, flow.provider) || Untried(run, state, flow, i);
        assert run[i].op.StartFlow?;
      }
      if i :| Untried(run, state, flow, i) {
        assert i == n || Untried(run[..n], state, flow, i);
      }
      if run[n].op.StartFlow? && run[n].op.state == state && run[n].op.flow.(expires := run[n].now + 600_000) == flow {
        assert Untried(run, state, flow, n);
      }
    }
  }

  /**
   A flow is answered exactly when its state was started for that provider less than ten
   minutes ago and that provider has not tried it since; the answer is what it was started
   with. Tries of another provider leave it open.
   */
  lemma FlowAnsweredIff(run: seq<Timed>, now: int, state: string, provider: string, flow: Flow)
    requires Clocked(run, now) && IssuedOnce(run)
    ensures Apply(StoreAfter(run), ConsumeFlow(state, provider), now).0 == FlowFound(Some(flow))
       <==> flow.provider == provider && now < flow.expires && exists i :: Untried(run, state, flow, i)
  {
    FlowLookup(StoreAfter(run), state, provider, now);
    hide Apply, StoreAfter;
    if now < flow.expires {
      FlowTracks(run, now, state, flow);
    }
  }

  lemma FlowLookup(st: Store, state: string, provider: string, now: int)
    ensures Apply(st, ConsumeFlow(state, provider), now).0
         == FlowFound(if state in st.flows && st.flows[state].provider == provider && now < st.flows[state].expires
                      then Some(st.flows[state]) else None)
  {
  }

  // --------------------------------------------------------------- sessions

  predicate Minted(run: seq<Timed>, h: string, id: string, user: string, i: int) {
    0 <= i < |run| && run[i].op == CreateSession(h, id, user)
  }

  predicate Revokes(op: Op, id: string, user: string) {
    || op == RevokeSession(id, user)
    || (op.RevokeAllSessions? && op.user == user && op.spare != Some(id))
  }

  predicate Unrevoked(run: seq<Timed>, id: string, user: string, i: int) {
    forall j :: 0 <= j < |run| && i < j ==> !Revokes(run[j].op, id, user)
  }

  /** The session was minted, or looked up and found, at position `k`. */
  predicate Seen(run: seq<Timed>, h: string, i: int, k: int) {
    && 0 <= i <= k < |run|
    && (k == i || (run[k].op == FindLiveSession(h)
                   && Apply(StoreAfter(run[..k]), run[k].op, run[k].now).0 != Found(None)))
  }

  /** What the row of a session minted at `i` says, while it cannot have been purged. */
  ghost predicate RowTells(run: seq<Timed>, h: string, id: string, user: string, i: int)
    requires Minted(run, h, id, user, i)
  {
    var m := StoreAfter(run).sessions;
    && h in m && m[h].id == id && m[h].user == user
    && m[h].created == run[i].now && m[h].expires == run[i].now + SESSION_ABSOLUTE
    && (m[h].revoked.None? <==> Unrevoked(run, id, user, i))
    && (exists k :: Seen(run, h, i, k) && run[k].now == m[h].lastSeen)
    && (forall k :: Seen(run, h, i, k) ==> run[k].now - TOUCH_INTERVAL <= m[h].lastSeen)
  }

  /** One operation on a session row that neither mints it nor outlives it. */
  lemma SessionStep(st: Store, op: Op, now: int, h: string)
    requires h in st.sessions && st.sessions[h].expires >= now && !(op.CreateSession? && op.hash == h)
    ensures var s, m := st.sessions[h], Apply(st, op, now).1.sessions;
            && h in m
            && m[h].(lastSeen := s.lastSeen, revoked := s.revoked) == s
            && (m[h].revoked.None? <==> s.revoked.None? && !Revokes(op, s.id, s.user))
            && m[h].lastSeen == (if op == FindLiveSession(h) && SessionLive(s, now) && s.lastSeen < now - TOUCH_INTERVAL
                                 then now else s.lastSeen)
  {
  }

  lemma SeenPrefix(run: seq<Timed>, n: nat, h: string, i: int, k: int)
    requires n <= |run| && 0 <= k < n
    ensures Seen(run[..n], h, i, k) <==> Seen(run, h, i, k)
  {
    if i <= k {
      assert run[..n][..k] == run[..k];
    }
  }

  lemma {:induction false} SessionTracks(run: seq<Timed>, now: int, h: string, id: string, user: string, i: int)
    requires Clocked(run, now) && IssuedOnce(run) && Minted(run, h, id, user, i)
    requires run[i].now + SESSION_ABSOLUTE >= now
    ensures RowTells(run, h, id, user, i)
    decreases |run|
  {
    hide Apply;
    var n := |run| - 1;
    Shorter(run, now);
    if i == n {
      MintStep(StoreAfter(run[..n]), h, id, user, run[n].now);
      assert Seen(run, h, i, n);
    } else {
      assert Minted(run[..n], h, id, user, i);
      SessionTracks(run[..n], run[n].now, h, id, user, i);
      var st := StoreAfter(run[..n]);
      SessionStep(st, run[n].op, run[n].now, h);
      FindAnswers(st, h, run[n].now);
      assert run[..n][i] == run[i];
      assert Unrevoked(run, id, user, i) <==> Unrevoked(run[..n], id, user, i) && !Revokes(run[n].op, id, user);
      forall k | Seen(run, h, i, k) ensures run[k].now - TOUCH_INTERVAL <= StoreAfter(run).sessions[h].lastSeen {
        if k < n {
          SeenPrefix(run, n, h, i, k);
          assert run[..n][k] == run[k];
        }
      }
      var k :| Seen(run[..n], h, i, k) && run[..n][k].now == st.sessions[h].lastSeen;
      SeenPrefix(run, n, h, i, k);
      if StoreAfter(run).sessions[h].lastSeen != st.sessions[h].lastSeen {
        assert Seen(run, h, i, n);
      } else {
        assert Seen(run, h, i, k) && run[k].now == StoreAfter(run).sessions[h].lastSeen;
      }
    }
  }

  lemma MintStep(st: Store, h: string, id: string, user: string, now: int)
    ensures Apply(st, CreateSession(h, id, user), now).1.sessions
         == st.sessions[h := Session(id, user, now, now, now + SESSION_ABSOLUTE, None)]
  {
  }

  lemma FindAnswers(st: Store, h: string, now: int)
    ensures Apply(st, FindLiveSession(h), now).0
         == Found(if h in st.sessions && SessionLive(st.sessions[h], now) then Some(st.sessions[h]) else None)
  {
  }

  /** A session row present after an operation was there before it, or is the one it minted. */
  lemma RowKept(st: Store, op: Op, now: int, h: string)
    requires h in Apply(st, op, now).1.sessions
    ensures var s := Apply(st, op, now).1.sessions[h];
            if op.CreateSession? && op.hash == h
            then s == Session(op.id, op.user, now, now, now + SESSION_ABSOLUTE, None)
            else h in st.sessions && s.(lastSeen := 0, revoked := None) == st.sessions[h].(lastSeen := 0, revoked := None)
  {
  }

  /** Every session row was minted in the run. */
  lemma {:induction false} SessionOrigin(run: seq<Timed>, h: string)
    requires h in StoreAfter(run).sessions
    ensures exists i :: Minted(run, h, StoreAfter(run).sessions[h].id, StoreAfter(run).sessions[h].user, i)
                        && StoreAfter(run).sessions[h].expires == run[i].now + SESSION_ABSOLUTE
    decreases |run|
  {
    hide Apply;
    var n := |run| - 1;
    var s := StoreAfter(run).sessions[h];
    RowKept(StoreAfter(run[..n]), run[n].op, run[n].now, h);
    if run[n].op.CreateSession? && run[n].op.hash == h {
      assert Minted(run, h, s.id, s.user, n);
    } else {
      SessionOrigin(run[..n], h);
      var i :| Minted(run[..n], h, s.id, s.user, i) && s.expires == run[..n][i].now + SESSION_ABSOLUTE;
      assert Minted(run, h, s.id, s.user, i);
    }
  }

  /**
   A session that is found was minted less than thirty days ago, not revoked since,
   and minted or found within the last fourteen days.
   */
  lemma {:induction false} FoundMeansActive(run: seq<Timed>, now: int, h: string)
    requires Clocked(run, now) && IssuedOnce(run)
    ensures var found := Apply(StoreAfter(run), FindLiveSession(h), now).0;
            && found.Found?
            && (found.session.Some? ==>
                  exists i, k ::
                    && Minted(run, h, found.session.value.id, found.session.value.user, i)
                    && now < run[i].now + SESSION_ABSOLUTE
                    && Unrevoked(run, found.session.value.id, found.session.value.user, i)
                    && Seen(run, h, i, k) && now - SESSION_IDLE < run[k].now)
  {
    var m := StoreAfter(run).sessions;
    if h in m && SessionLive(m[h], now) {
      SessionOrigin(run, h);
      var i :| Minted(run, h, m[h].id, m[h].user, i) && m[h].expires == run[i].now + SESSION_ABSOLUTE;
      SessionTracks(run, now, h, m[h].id, m[h].user, i);
    }
  }

  /** And conversely, up to the five minutes a use may go unrecorded. */
  lemma {:induction false} ActiveIsFound(run: seq<Timed>, now: int, h: string, id: string, user: string, i: int, k: int)
    requires Clocked(run, now) && IssuedOnce(run)
    requires Minted(run, h, id, user, i) && now < run[i].now + SESSION_ABSOLUTE && Unrevoked(run, id, user, i)
    requires Seen(run, h, i, k) && now - SESSION_IDLE + TOUCH_INTERVAL < run[k].now
    ensures var found := Apply(StoreAfter(run), FindLiveSession(h), now).0;
            && found.Found? && found.session.Some?
            && found.session.value.id == id && found.session.value.user == user
  {
    SessionTracks(run, now, h, id, user, i);
  }

  /** The list of a user's sessions is exactly what single lookups would find of theirs, and looking changes nothing. */
  lemma ListsWhatIsFound(st: Store, user: string, now: int)
    ensures var (listed, st') := Apply(st, ListLiveSessions(user), now);
            && st' == st && listed.Listed?
            && forall s :: s in listed.sessions <==>
                 s.user == user && exists h :: Apply(st, FindLiveSession(h), now).0 == Found(Some(s))
  {
    var listed := Apply(st, ListLiveSessions(user), now).0;
    forall h ensures Apply(st, FindLiveSession(h), now).0
                  == Found(if h in st.sessions && SessionLive(st.sessions[h], now) then Some(st.sessions[h]) else None)
    {
      FindAnswers(st, h, now);
    }
    hide Apply, SessionLive;
    forall s ensures s in Listing(st, user, now) <==>
                       s.user == user && exists h :: Apply(st, FindLiveSession(h), now).0 == Found(Some(s))
    {
      if s in Listing(st, user, now) {
        var h :| h in st.sessions && st.sessions[h].user == user && SessionLive(st.sessions[h], now) && st.sessions[h] == s;
        assert Apply(st, FindLiveSession(h), now).0 == Found(Some(s));
      }
    }
  }

  /** The user's live sessions. */
  function Listing(st: Store, user: string, now: int): set<Session> {
    set h | h in st.sessions && st.sessions[h].user == user && SessionLive(st.sessions[h], now) :: st.sessions[h]
  }

  // ------------------------------------------------------------------ purges

  /** Exactly what a purge leaves of each table: unspent and in date, or received within seven days. */
  lemma PurgeLeaves(st: Store, now: int)
    ensures var (r, st') := Apply(st, Purge, now);
            && r == Done
            && (forall h :: h in st'.tokens <==> h in st.tokens && st.tokens[h].consumed.None? && now <= st.tokens[h].expires)
            && (forall h :: h in st'.tokens ==> st'.tokens[h] == st.tokens[h])
            && (forall h :: h in st'.challenges <==>
                  h in st.challenges && st.challenges[h].consumed.None? && now <= st.challenges[h].expires)
            && (forall h :: h in st'.challenges ==> st'.challenges[h] == st.challenges[h])
            && (forall h :: h in st'.sessions <==> h in st.sessions && now <= st.sessions[h].expires)
            && (forall h :: h in st'.sessions ==> st'.sessions[h] == st.sessions[h])
            && (forall f :: f in st'.flows <==> f in st.flows && now <= st.flows[f].expires)
            && (forall f :: f in st'.flows ==> st'.flows[f] == st.flows[f])
            && (forall m :: m in st'.sns <==> m in st.sns && now - 604_800_000 <= st.sns[m])
            && (forall m :: m in st'.sns ==> st'.sns[m] == st.sns[m])
  {
  }
}
