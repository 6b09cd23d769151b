/**
 Do payment statuses and the ledger agree when webhook transactions interleave
 statement by statement? This module says exactly when: as long as no payment has
 both a succeeded event and one of another kind.
 */
module Agreement {
  import opened Prelude
  import L = Ledger
  import M = StripeMapping
  import P = Payments
  import W = Webhook
  import C = Confluence
  import opened Interleaving

  /** The charge entry payment `i` should have. */
  function ChargeOf(rows: P.Rows, i: string): L.Entry
    requires i in rows
  {
    W.ChargeDraft(i, rows[i]).entry
  }

  /** A payment is succeeded exactly when its charge is committed, and every charge is of its payment's amount. */
  ghost predicate Agrees(s: Sys) {
    && (forall i :: (i in s.rows && s.rows[i].status == P.Succeeded) <==> LedgerHas(s.ledger, L.Key(L.Charge, i)))
    && (forall n :: 0 <= n < |s.ledger| && s.ledger[n].key.kind == L.Charge ==>
          && s.ledger[n].key.reference in s.rows
          && s.ledger[n].entry == ChargeOf(s.rows, s.ledger[n].key.reference))
  }

  predicate Settles(e: M.StripeEvent, i: string) {
    C.Moves(e, i) && C.Target(e) == P.Succeeded
  }

  predicate Diverts(e: M.StripeEvent, i: string) {
    C.Moves(e, i) && C.Target(e) != P.Succeeded
  }

  /** Nothing is open, the books agree, the events are unseen and the payments they move freshly created. */
  ghost predicate Starts(s: Sys, es: set<M.StripeEvent>) {
    && Inv(s) && s.open == map[] && Agrees(s)
    && (forall i :: i in s.rows ==> P.RowAllowed(s.rows[i].amount, s.rows[i].currency))
    && (forall e :: e in es ==> !InboxHas(s.inbox, e.id))
    && (forall e, i :: e in es && i in s.rows && C.Moves(e, i) ==>
          s.rows[i].status == P.Created && s.rows[i].lastAt == None)
  }

  /** The transactions are for events of the set; how often each is tried, and how they mix, is free. */
  predicate Schedules(steps: seq<Step>, es: set<M.StripeEvent>) {
    forall n :: 0 <= n < |steps| && steps[n].Begin? ==> steps[n].event in es
  }

  /** No payment has both an event that succeeds it and another event that does not. */
  ghost predicate OneKind(rows: P.Rows, es: set<M.StripeEvent>) {
    forall i, a, b :: i in rows && a in es && b in es && Settles(a, i) && Diverts(b, i) ==> a.id == b.id
  }

  // ------------------------------------------------------------- sufficiency

  /** The rows are those of the start but for status and event time. */
  predicate SameMoney(rows0: P.Rows, rows: P.Rows) {
    rows.Keys == rows0.Keys
    && forall i :: i in rows ==> rows[i].amount == rows0[i].amount && rows[i].currency == rows0[i].currency
  }

  /** What an open transaction has prepared is the change and the charge of its own event. */
  predicate Prepared(rows0: P.Rows, ledger: seq<Line>, t: Tx) {
    var i := t.event.objectId;
    && (t.update.Some? ==>
          && t.update.value.0 == i && i in rows0 && C.Moves(t.event, i)
          && t.update.value.1.status == C.Target(t.event)
          && t.update.value.1.amount == rows0[i].amount && t.update.value.1.currency == rows0[i].currency)
    && ((t.pc.InsertEntry? || t.pc.InsertPostings?) && (t.update.Some? || t.pc.draft.key.kind == L.Charge) ==>
          && t.update.Some? && Settles(t.event, i)
          && t.pc.draft.key == L.Key(L.Charge, i) && t.pc.draft.entry == ChargeOf(rows0, i))
    && (t.pc.ReadPayment? || t.pc.UpdatePayment? ==> t.update.None?)
    && (t.pc.Commit? && t.line.Some? && t.line.value.key.kind == L.Charge ==>
          && t.update.Some? && Settles(t.event, i)
          && t.line.value == Line(L.Key(L.Charge, i), ChargeOf(rows0, i)))
    && (t.pc.Commit? && t.update.Some? && Settles(t.event, i) ==>
          LedgerHas(ledger, L.Key(L.Charge, i))
          || (t.line.Some? && t.line.value == Line(L.Key(L.Charge, i), ChargeOf(rows0, i))))
  }

  /** A charge of a payment the events move was committed with one of its succeeded events. */
  ghost predicate ChargesClaimed(rows0: P.Rows, es: set<M.StripeEvent>, s: Sys) {
    forall i, e :: LedgerHas(s.ledger, L.Key(L.Charge, i)) && i in rows0 && e in es && C.Moves(e, i) ==>
      exists a :: a in es && Settles(a, i) && InboxHas(s.inbox, a.id)
  }

  ghost predicate Sync(rows0: P.Rows, es: set<M.StripeEvent>, s: Sys) {
    && Inv(s) && Agrees(s) && SameMoney(rows0, s.rows) && ChargesClaimed(rows0, es, s)
    && (forall tx :: tx in s.open ==> s.open[tx].event in es && Prepared(rows0, s.ledger, s.open[tx]))
  }

  /** The start satisfies the invariant. */
  lemma StartSyncs(s: Sys, es: set<M.StripeEvent>)
    requires Starts(s, es)
    ensures Sync(s.rows, es, s)
  {
    hide C.Moves, C.Target, Inv, LedgerHas, InboxHas;
  }

  /** One statement short of commit keeps what its transaction has prepared in order. */
  lemma ExecutePrepares(rows0: P.Rows, s: Sys, tx: nat)
    requires Inv(s) && SameMoney(rows0, s.rows) && tx in s.open && !s.open[tx].pc.Commit?
    requires Prepared(rows0, s.ledger, s.open[tx])
    ensures var s' := Execute(s, tx);
            && s'.inbox == s.inbox && s'.rows == s.rows && s'.ledger == s.ledger
            && (s'.open == s.open - {tx}
                || (tx in s'.open && s'.open == s.open[tx := s'.open[tx]] && s'.open[tx].event == s.open[tx].event
                    && Prepared(rows0, s.ledger, s'.open[tx])))
  {
    hide M.KindByType, M.LedgerKindByType, ClaimHeld, RowHeld, KeyHeld, LedgerHas, InboxHas, Fits, Inv, L.Template;
    InvTx(s, tx);
    M.MapsExclusive(s.open[tx].event.typ);
  }

  /** A commit keeps the books in agreement: the one thing that could break it is a second kind of event. */
  lemma CommitSyncs(rows0: P.Rows, es: set<M.StripeEvent>, s: Sys, tx: nat)
    requires Sync(rows0, es, s) && OneKind(rows0, es) && tx in s.open && s.open[tx].pc.Commit?
    ensures var s' := Publish(s, tx);
            Agrees(s') && SameMoney(rows0, s'.rows) && ChargesClaimed(rows0, es, s')
  {
    hide C.Moves, C.Target, L.Template, Inv;
    var t, s' := s.open[tx], Publish(s, tx);
    var i := t.event.objectId;
    InvTx(s, tx);
    CommitClaims(s, tx);
    forall k ensures LedgerHas(s'.ledger, k) <==> LedgerHas(s.ledger, k) || (t.line.Some? && t.line.value.key == k) {
      LedgerGrows(s.ledger, t.line, k);
    }
    forall id ensures InboxHas(s'.inbox, id) <==> InboxHas(s.inbox, id) || id == t.event.id {
      InboxGrows(s.inbox, t.claim.value, id);
    }
    hide LedgerHas, InboxHas;
    if t.update.Some? && !Settles(t.event, i) {
      forall a | a in es && Settles(a, i) ensures !InboxHas(s.inbox, a.id) {
        assert Diverts(t.event, i);
      }
    }
    ChargesStayClaimed(rows0, es, s, s', t);
    CommittedAgrees(rows0, s, s', t);
  }

  lemma CommitClaims(s: Sys, tx: nat)
    requires Inv(s) && tx in s.open && s.open[tx].pc.Commit?
    ensures s.open[tx].claim.Some? && s.open[tx].claim.value.id == s.open[tx].event.id
    ensures !InboxHas(s.inbox, s.open[tx].event.id)
  {
    InvTx(s, tx);
  }

  lemma LedgerGrows(ledger: seq<Line>, line: Option<Line>, k: L.Key)
    ensures LedgerHas(ledger + (if line.Some? then [line.value] else []), k)
       <==> LedgerHas(ledger, k) || (line.Some? && line.value.key == k)
  {
    if line.Some? {
      assert (ledger + [line.value])[|ledger|] == line.value;
    }
    if LedgerHas(ledger, k) {
      var n :| 0 <= n < |ledger| && ledger[n].key == k;
      assert (ledger + (if line.Some? then [line.value] else []))[n] == ledger[n];
    }
  }

  lemma InboxGrows(inbox: seq<Claim>, c: Claim, id: string)
    ensures InboxHas(inbox + [c], id) <==> InboxHas(inbox, id) || c.id == id
  {
    assert (inbox + [c])[|inbox|] == c;
    if InboxHas(inbox, id) {
      var n :| 0 <= n < |inbox| && inbox[n].id == id;
      assert (inbox + [c])[n] == inbox[n];
    }
  }

  lemma ChargesStayClaimed(rows0: P.Rows, es: set<M.StripeEvent>, s: Sys, s': Sys, t: Tx)
    requires ChargesClaimed(rows0, es, s) && Prepared(rows0, s.ledger, t) && t.pc.Commit? && t.event in es
    requires forall k :: LedgerHas(s'.ledger, k) <==> LedgerHas(s.ledger, k) || (t.line.Some? && t.line.value.key == k)
    requires forall id :: InboxHas(s'.inbox, id) <==> InboxHas(s.inbox, id) || id == t.event.id
    ensures ChargesClaimed(rows0, es, s')
  {
    hide C.Moves, C.Target, LedgerHas, InboxHas, L.Template;
    forall i, e | LedgerHas(s'.ledger, L.Key(L.Charge, i)) && i in rows0 && e in es && C.Moves(e, i)
      ensures exists a :: a in es && Settles(a, i) && InboxHas(s'.inbox, a.id)
    {
      if LedgerHas(s.ledger, L.Key(L.Charge, i)) {
        var a :| a in es && Settles(a, i) && InboxHas(s.inbox, a.id);
        assert InboxHas(s'.inbox, a.id);
      } else {
        assert Settles(t.event, i) && InboxHas(s'.inbox, t.event.id);
      }
    }
  }

  lemma CommittedAgrees(rows0: P.Rows, s: Sys, s': Sys, t: Tx)
    requires Agrees(s) && SameMoney(rows0, s.rows) && Prepared(rows0, s.ledger, t) && t.pc.Commit?
    requires s'.rows == if t.update.Some? then s.rows[t.update.value.0 := t.update.value.1] else s.rows
    requires s'.ledger == s.ledger + if t.line.Some? then [t.line.value] else []
    requires forall k :: LedgerHas(s'.ledger, k) <==> LedgerHas(s.ledger, k) || (t.line.Some? && t.line.value.key == k)
    requires t.update.Some? && !Settles(t.event, t.event.objectId) ==>
               !LedgerHas(s.ledger, L.Key(L.Charge, t.event.objectId))
    ensures Agrees(s') && SameMoney(rows0, s'.rows)
  {
    hide C.Moves, C.Target, LedgerHas, L.Template;
    var j := t.event.objectId;
    forall i
      ensures (i in s'.rows && s'.rows[i].status == P.Succeeded) <==> LedgerHas(s'.ledger, L.Key(L.Charge, i))
    {
    }
    forall n | 0 <= n < |s'.ledger| && s'.ledger[n].key.kind == L.Charge
      ensures s'.ledger[n].key.reference in s'.rows
      ensures s'.ledger[n].entry == ChargeOf(s'.rows, s'.ledger[n].key.reference)
    {
      if n < |s.ledger| {
        assert s'.ledger[n] == s.ledger[n];
      } else {
        assert s'.ledger[n] == t.line.value;
      }
    }
  }

  lemma NextSyncs(rows0: P.Rows, es: set<M.StripeEvent>, s: Sys, step: Step)
    requires Sync(rows0, es, s) && OneKind(rows0, es) && (step.Begin? ==> step.event in es)
    ensures Sync(rows0, es, Next(s, step))
  {
    hide Execute, OneKind, Agrees, SameMoney, ChargesClaimed, Prepared, Inv;
    NextKeepsInv(s, step);
    match step {
      case Begin(tx, e) => FreshIsPrepared(rows0, s.ledger, e);
      case Rollback(tx) =>
      case Advance(tx) =>
        if tx in s.open {
          if s.open[tx].pc.Commit? {
            CommitOutcome(s, tx);
            CommitSyncs(rows0, es, s, tx);
            var s' := Next(s, step);
            if s' == Publish(s, tx) {
              forall o | o in s'.open ensures Prepared(rows0, s'.ledger, s'.open[o]) {
                PreparedGrows(rows0, s.ledger, s.open[tx].line, s.open[o]);
              }
            }
          } else {
            ExecutePrepares(rows0, s, tx);
            SameBooksStay(rows0, es, s, Next(s, step));
          }
        }
    }
    if Next(s, step).ledger == s.ledger && Next(s, step).rows == s.rows && Next(s, step).inbox == s.inbox {
      SameBooksStay(rows0, es, s, Next(s, step));
    }
  }

  lemma SameBooksStay(rows0: P.Rows, es: set<M.StripeEvent>, s: Sys, s': Sys)
    requires Agrees(s) && ChargesClaimed(rows0, es, s)
    requires s'.ledger == s.ledger && s'.rows == s.rows && s'.inbox == s.inbox
    ensures Agrees(s') && ChargesClaimed(rows0, es, s')
  {
  }

  lemma FreshIsPrepared(rows0: P.Rows, ledger: seq<Line>, e: M.StripeEvent)
    ensures Prepared(rows0, ledger, Tx(e, InsertClaim, None, None, None))
  {
  }

  lemma CommitOutcome(s: Sys, tx: nat)
    requires tx in s.open && s.open[tx].pc.Commit?
    ensures Execute(s, tx) == Publish(s, tx) || Execute(s, tx) == Close(s, tx)
  {
  }

  lemma PreparedGrows(rows0: P.Rows, ledger: seq<Line>, line: Option<Line>, t: Tx)
    requires Prepared(rows0, ledger, t)
    ensures Prepared(rows0, ledger + (if line.Some? then [line.value] else []), t)
  {
    hide LedgerHas, C.Moves, C.Target, L.Template;
    LedgerGrows(ledger, line, L.Key(L.Charge, t.event.objectId));
  }

  lemma {:induction false} ScheduleSyncs(rows0: P.Rows, es: set<M.StripeEvent>, s: Sys, steps: seq<Step>)
    requires Sync(rows0, es, s) && OneKind(rows0, es) && Schedules(steps, es)
    ensures Sync(rows0, es, After(s, steps))
    decreases |steps|
  {
    hide Sync, OneKind, Next;
    if steps != [] {
      var n := |steps| - 1;
      assert forall k :: 0 <= k < n ==> steps[..n][k] == steps[k];
      ScheduleSyncs(rows0, es, s, steps[..n]);
      NextSyncs(rows0, es, After(s, steps[..n]), steps[n]);
    }
  }

  // --------------------------------------------------------------- necessity

  predicate Unsettles(kind: Option<M.PaymentEventKind>) {
    kind.Some? && kind.value != M.Succeeded
  }

  /** Two transactions of one payment up to their reads, then one to its commit, then the other. */
  function Race(a: M.StripeEvent, b: M.StripeEvent): seq<Step> {
    [Begin(0, a), Begin(1, b), Advance(0), Advance(1), Advance(0), Advance(1)]
    + [Advance(0), Advance(0), Advance(0), Advance(0), Advance(1), Advance(1)]
  }

  /**
   Two transactions that both read the payment before either commits: the first
   posts the charge, the second then overwrites the status with any other one.
   */
  lemma RaceBreaksAgreement(s: Sys, i: string, a: M.StripeEvent, b: M.StripeEvent)
    requires s.open == map[] && !InboxHas(s.inbox, a.id) && !InboxHas(s.inbox, b.id) && a.id != b.id
    requires i in s.rows && s.rows[i].status == P.Created && s.rows[i].lastAt == None
    requires P.RowAllowed(s.rows[i].amount, s.rows[i].currency) && !LedgerHas(s.ledger, L.Key(L.Charge, i))
    requires Settles(a, i) && Diverts(b, i)
    ensures var t := After(s, Race(a, b));
            && t.open == map[] && i in t.rows && t.rows[i].status != P.Succeeded
            && LedgerHas(t.ledger, L.Key(L.Charge, i))
  {
    hide M.KindByType, M.LedgerKindByType, Execute, InboxHas, LedgerHas;
    BothRead(s, i, a, b);
    var ca := Claim(a.id, W.InboxRow(a.typ, W.Processed, a));
    var cb := Claim(b.id, W.InboxRow(b.typ, W.Processed, b));
    FirstCommits(s, i, Tx(a, UpdatePayment(Some(s.rows[i])), Some(ca), None, None),
                 Tx(b, UpdatePayment(Some(s.rows[i])), Some(cb), None, None));
    FoldSplit(Next, s, [Begin(0, a), Begin(1, b), Advance(0), Advance(1), Advance(0), Advance(1)],
               [Advance(0), Advance(0), Advance(0), Advance(0), Advance(1), Advance(1)]);
  }

  /** The system with two transactions in progress. */
  function Two(s: Sys, a: Tx, b: Tx): Sys {
    s.(open := map[0 := a, 1 := b])
  }

  lemma {:induction false} BothRead(s: Sys, i: string, a: M.StripeEvent, b: M.StripeEvent)
    requires s.open == map[] && !InboxHas(s.inbox, a.id) && !InboxHas(s.inbox, b.id) && i in s.rows
    requires a.id != b.id && a.objectId == i == b.objectId
    requires M.MapStripeEvent(a).Some? && M.MapStripeEvent(b).Some?
    ensures After(s, [Begin(0, a), Begin(1, b), Advance(0), Advance(1), Advance(0), Advance(1)])
         == Two(s, Tx(a, UpdatePayment(Some(s.rows[i])), Some(Claim(a.id, W.InboxRow(a.typ, W.Processed, a))), None, None),
                Tx(b, UpdatePayment(Some(s.rows[i])), Some(Claim(b.id, W.InboxRow(b.typ, W.Processed, b))), None, None))
  {
    hide M.KindByType, M.LedgerKindByType, Execute;
    var ca := Claim(a.id, W.InboxRow(a.typ, W.Processed, a));
    var cb := Claim(b.id, W.InboxRow(b.typ, W.Processed, b));
    var a0, b0 := Tx(a, InsertClaim, None, None, None), Tx(b, InsertClaim, None, None, None);
    var a1, b1 := a0.(claim := Some(ca), pc := ReadPayment), b0.(claim := Some(cb), pc := ReadPayment);
    var a2, b2 := a1.(pc := UpdatePayment(Some(s.rows[i]))), b1.(pc := UpdatePayment(Some(s.rows[i])));
    Step0(s, a0, b0, a1);
    Step1(s, a1, b0, b1);
    Step0(s, a1, b1, a2);
    Step1(s, a2, b1, b2);
    assert Next(Next(s, Begin(0, a)), Begin(1, b)) == Two(s, a0, b0);
    FoldSix(Next, s, Begin(0, a), Begin(1, b), Advance(0), Advance(1), Advance(0), Advance(1));
  }

  /** One statement of the first, or of the second, of two transactions up to their reads. */
  lemma {:induction false} Step0(s: Sys, a: Tx, b: Tx, a': Tx)
    requires !InboxHas(s.inbox, a.event.id) && a.event.objectId in s.rows && M.MapStripeEvent(a.event).Some?
    requires b.claim.Some? ==> b.claim.value.id != a.event.id
    requires || (a.pc.InsertClaim? && a' == a.(claim := Some(Claim(a.event.id, W.InboxRow(a.event.typ, W.Processed, a.event))),
                                               pc := ReadPayment))
             || (a.pc.ReadPayment? && a' == a.(pc := UpdatePayment(Some(s.rows[a.event.objectId]))))
    ensures Next(Two(s, a, b), Advance(0)) == Two(s, a', b)
  {
    hide M.KindByType, M.LedgerKindByType;
    assert Two(s, a, b).open[0 := a'] == Two(s, a', b).open;
  }

  lemma Step1(s: Sys, a: Tx, b: Tx, b': Tx)
    requires !InboxHas(s.inbox, b.event.id) && b.event.objectId in s.rows && M.MapStripeEvent(b.event).Some?
    requires a.claim.Some? ==> a.claim.value.id != b.event.id
    requires || (b.pc.InsertClaim? && b' == b.(claim := Some(Claim(b.event.id, W.InboxRow(b.event.typ, W.Processed, b.event))),
                                               pc := ReadPayment))
             || (b.pc.ReadPayment? && b' == b.(pc := UpdatePayment(Some(s.rows[b.event.objectId]))))
    ensures Next(Two(s, a, b), Advance(1)) == Two(s, a, b')
  {
  }

  /** The first transaction posts the charge and commits; the second then overwrites the status. */
  lemma FirstCommits(s: Sys, i: string, a: Tx, b: Tx)
    requires s.open == map[] && !LedgerHas(s.ledger, L.Key(L.Charge, i)) && i in s.rows
    requires s.rows[i].status == P.Created && s.rows[i].lastAt == None
    requires P.RowAllowed(s.rows[i].amount, s.rows[i].currency)
    requires a.pc == UpdatePayment(Some(s.rows[i])) == b.pc && a.event.objectId == i == b.event.objectId
    requires a.claim.Some? && b.claim.Some? && a.update.None? && b.update.None? && a.line.None? && b.line.None?
    requires M.KindByType(a.event.typ) == Some(M.Succeeded) && Unsettles(M.KindByType(b.event.typ))
    ensures var r := After(Two(s, a, b), [Advance(0), Advance(0), Advance(0), Advance(0), Advance(1), Advance(1)]);
            && r.open == map[] && i in r.rows && r.rows[i].status != P.Succeeded
            && LedgerHas(r.ledger, L.Key(L.Charge, i))
  {
    hide M.KindByType, M.LedgerKindByType, Execute, W.ChargeDraft, L.Template;
    var row := s.rows[i].(status := P.Succeeded, lastAt := Some(a.event.created * 1000));
    var d := W.ChargeDraft(i, row);
    var a1 := a.(update := Some((i, row)), pc := InsertEntry(d));
    var a2 := a1.(line := Some(Line(d.key, d.entry.(postings := []))), pc := InsertPostings(d));
    var a3 := a2.(line := Some(Line(d.key, d.entry)), pc := Commit);
    var s4 := Sys(s.inbox + [a.claim.value], s.rows[i := row], s.ledger + [Line(d.key, d.entry)], map[1 := b]);
    ChargeFits(i, row);
    FirstUpdates(s, i, a, b, a1);
    FirstPosts(s, a1, b, d, a2, a3);
    FirstPublishes(s, a3, b, s4);
    LastCommits(s4, i, b);
    FoldSix(Next, Two(s, a, b), Advance(0), Advance(0), Advance(0), Advance(0), Advance(1), Advance(1));
    assert s4.ledger[|s.ledger|].key == L.Key(L.Charge, i);
  }

  lemma ChargeFits(i: string, row: P.PaymentRow)
    requires |row.currency| == 3
    ensures Fits(W.ChargeDraft(i, row).entry) && W.ChargeDraft(i, row).key == L.Key(L.Charge, i)
  {
    L.TemplateBalances(L.Charge, row.amount);
  }

  lemma {:induction false} FirstUpdates(s: Sys, i: string, a: Tx, b: Tx, a1: Tx)
    requires i in s.rows && a.pc == UpdatePayment(Some(s.rows[i])) && a.event.objectId == i
    requires s.rows[i].status == P.Created && s.rows[i].lastAt == None && a.claim.Some? && b.update.None?
    requires M.KindByType(a.event.typ) == Some(M.Succeeded)
    requires var row := s.rows[i].(status := P.Succeeded, lastAt := Some(a.event.created * 1000));
             a1 == a.(update := Some((i, row)), pc := InsertEntry(W.ChargeDraft(i, row)))
    ensures Next(Two(s, a, b), Advance(0)) == Two(s, a1, b)
  {
    hide M.KindByType, M.LedgerKindByType, W.ChargeDraft;
    assert Two(s, a, b).open[0 := a1] == Two(s, a1, b).open;
  }

  lemma {:induction false} FirstPosts(s: Sys, a: Tx, b: Tx, d: W.Draft, a2: Tx, a3: Tx)
    requires !LedgerHas(s.ledger, d.key) && b.line.None? && a.pc == InsertEntry(d) && Fits(d.entry)
    requires a2 == a.(line := Some(Line(d.key, d.entry.(postings := []))), pc := InsertPostings(d))
    requires a3 == a2.(line := Some(Line(d.key, d.entry)), pc := Commit)
    ensures Next(Two(s, a, b), Advance(0)) == Two(s, a2, b)
    ensures Next(Two(s, a2, b), Advance(0)) == Two(s, a3, b)
  {
    hide Fits, LedgerHas, M.MapStripeEvent, M.MapLedgerEvent;
    assert Two(s, a, b).open[0 := a2] == Two(s, a2, b).open;
    assert Two(s, a2, b).open[0 := a3] == Two(s, a3, b).open;
  }

  lemma FirstPublishes(s: Sys, a: Tx, b: Tx, s4: Sys)
    requires a.pc == Commit && a.claim.Some? && a.update.Some? && a.line.Some? && Fits(a.line.value.entry)
    requires s4 == Sys(s.inbox + [a.claim.value], s.rows[a.update.value.0 := a.update.value.1],
                       s.ledger + [a.line.value], map[1 := b])
    ensures Next(Two(s, a, b), Advance(0)) == s4
  {
  }

  lemma {:induction false} LastCommits(s: Sys, i: string, b: Tx)
    requires s.open == map[1 := b] && i in s.rows && b.event.objectId == i
    requires b.pc.UpdatePayment? && b.pc.seen.Some? && b.pc.seen.value.status == P.Created && b.pc.seen.value.lastAt == None
    requires b.claim.Some? && b.update.None? && b.line.None?
    requires Unsettles(M.KindByType(b.event.typ))
    ensures var r := Next(Next(s, Advance(1)), Advance(1));
            && r.open == map[] && i in r.rows && r.rows[i].status != P.Succeeded && r.ledger == s.ledger
  {
    hide M.KindByType, M.LedgerKindByType;
    var row := s.rows[i].(status := P.StatusOf(M.KindByType(b.event.typ).value), lastAt := Some(b.event.created * 1000));
    var b1 := b.(update := Some((i, row)), pc := Commit);
    assert Next(s, Advance(1)) == s.(open := map[1 := b1]);
  }

  // ------------------------------------------------------------ main result

  /**
   Status and ledger agree after every schedule of the events' transactions, however
   interleaved, retried or rolled back, if and only if no payment has both a
   succeeded event and another event that processes, fails or cancels it.
   */
  lemma AgreementIffOneKind(s: Sys, es: set<M.StripeEvent>)
    requires Starts(s, es)
    ensures (forall steps :: Schedules(steps, es) ==> Agrees(After(s, steps))) <==> OneKind(s.rows, es)
  {
    hide Next, Inv, C.Moves, C.Target, LedgerHas, InboxHas;
    if OneKind(s.rows, es) {
      StartSyncs(s, es);
      forall steps | Schedules(steps, es) ensures Agrees(After(s, steps)) {
        ScheduleSyncs(s.rows, es, s, steps);
      }
    } else {
      var i, a, b :| i in s.rows && a in es && b in es && Settles(a, i) && Diverts(b, i) && a.id != b.id;
      RaceBreaksAgreement(s, i, a, b);
      assert Schedules(Race(a, b), es);
      assert !Agrees(After(s, Race(a, b)));
    }
  }
}
