/**
 Webhook transactions split into their statements and interleaved at will, under
 READ COMMITTED: a read sees committed rows; an insert that meets another open
 transaction's uncommitted key, or an update that meets its uncommitted row,
 waits; commit publishes everything at once.
 */
module Interleaving {
  import opened Prelude
  import L = Ledger
  import M = StripeMapping
  import P = Payments
  import W = Webhook

  datatype Claim = Claim(id: string, row: W.InboxRow)

  datatype Line = Line(key: L.Key, entry: L.Entry)

  /** The statement a transaction will execute next. */
  datatype Pc =
    | InsertClaim
    | ReadPayment
    | UpdatePayment(seen: Option<P.PaymentRow>)
    | InsertEntry(draft: W.Draft)
    | InsertPostings(draft: W.Draft)
    | Commit

  /** An open transaction and what it has written but not committed. */
  datatype Tx = Tx(event: M.StripeEvent, pc: Pc, claim: Option<Claim>,
                   update: Option<(string, P.PaymentRow)>, line: Option<Line>)

  /** The committed tables, row by row, and the open transactions. */
  datatype Sys = Sys(inbox: seq<Claim>, rows: P.Rows, ledger: seq<Line>, open: map<nat, Tx>)

  datatype Step = Begin(tx: nat, event: M.StripeEvent) | Advance(tx: nat) | Rollback(tx: nat)

  predicate InboxHas(inbox: seq<Claim>, id: string) {
    exists i :: 0 <= i < |inbox| && inbox[i].id == id
  }

  predicate LedgerHas(ledger: seq<Line>, k: L.Key) {
    exists i :: 0 <= i < |ledger| && ledger[i].key == k
  }

  predicate Fits(e: L.Entry) {
    e.postings != [] && L.Imbalance(e.postings) == 0 && |e.currency| == L.CURRENCY_LENGTH
  }

  /** Another transaction holds the uncommitted event id, payment row or entry key. */
  predicate ClaimHeld(s: Sys, tx: nat, id: string) {
    exists o :: o in s.open && o != tx && s.open[o].claim.Some? && s.open[o].claim.value.id == id
  }

  predicate RowHeld(s: Sys, tx: nat, intent: string) {
    exists o :: o in s.open && o != tx && s.open[o].update.Some? && s.open[o].update.value.0 == intent
  }

  predicate KeyHeld(s: Sys, tx: nat, k: L.Key) {
    exists o :: o in s.open && o != tx && s.open[o].line.Some? && s.open[o].line.value.key == k
  }

  /** What comes after the claim for an event that moves no payment. */
  function AfterStatus(e: M.StripeEvent): Pc {
    match M.MapLedgerEvent(e)
    case Some(le) => InsertEntry(W.LedgerDraft(le))
    case None => Commit
  }

  function Close(s: Sys, tx: nat): Sys {
    s.(open := s.open - {tx})
  }

  function Publish(s: Sys, tx: nat): Sys
    requires tx in s.open
  {
    var t := s.open[tx];
    Sys(s.inbox + (if t.claim.Some? then [t.claim.value] else []),
        if t.update.Some? then s.rows[t.update.value.0 := t.update.value.1] else s.rows,
        s.ledger + (if t.line.Some? then [t.line.value] else []),
        s.open - {tx})
  }

  /** Executes the next statement of an open transaction; a blocked one stays where it is. */
  function Execute(s: Sys, tx: nat): Sys
    requires tx in s.open
  {
    var t := s.open[tx];
    var e := t.event;
    match t.pc
    case InsertClaim =>
      if ClaimHeld(s, tx, e.id) then s
      else if InboxHas(s.inbox, e.id) then Close(s, tx)
      else
        var moves := M.MapStripeEvent(e).Some?;
        var status := if moves || M.MapLedgerEvent(e).Some? then W.Processed else W.Unhandled;
        s.(open := s.open[tx := t.(claim := Some(Claim(e.id, W.InboxRow(e.typ, status, e))),
                                   pc := if moves then ReadPayment else AfterStatus(e))])
    case ReadPayment =>
      s.(open := s.open[tx := t.(pc := UpdatePayment(if e.objectId in s.rows then Some(s.rows[e.objectId]) else None))])
    case UpdatePayment(seen) =>
      var at := e.created * 1000;
      if M.MapStripeEvent(e).None? || t.claim.None? then s
      else if seen.None? then
        s.(open := s.open[tx := t.(claim := Some(t.claim.value.(row := t.claim.value.row.(status := W.Unmatched))),
                                   pc := Commit)])
      else if P.Terminal(seen.value.status) || (seen.value.lastAt.Some? && seen.value.lastAt.value > at) then
        s.(open := s.open[tx := t.(pc := Commit)])
      else if RowHeld(s, tx, e.objectId) || e.objectId !in s.rows then s
      else
        // Only the two columns are set, on the row as it is committed now.
        var kind := M.MapStripeEvent(e).value.kind;
        var row := s.rows[e.objectId].(status := P.StatusOf(kind), lastAt := Some(at));
        s.(open := s.open[tx := t.(update := Some((e.objectId, row)),
                                   pc := if kind == M.Succeeded then InsertEntry(W.ChargeDraft(e.objectId, row))
                                         else Commit)])
    case InsertEntry(d) =>
      if !Fits(d.entry) then Close(s, tx)
      else if KeyHeld(s, tx, d.key) then s
      else if LedgerHas(s.ledger, d.key) then s.(open := s.open[tx := t.(pc := Commit)])
      else s.(open := s.open[tx := t.(line := Some(Line(d.key, d.entry.(postings := []))), pc := InsertPostings(d))])
    case InsertPostings(d) =>
      s.(open := s.open[tx := t.(line := Some(Line(d.key, d.entry)), pc := Commit)])
    case Commit =>
      // The deferred trigger: an entry that does not balance aborts the transaction.
      if t.line.Some? && L.Imbalance(t.line.value.entry.postings) != 0 then Close(s, tx) else Publish(s, tx)
  }

  function Next(s: Sys, step: Step): Sys {
    match step
    case Begin(tx, e) => if tx in s.open then s else s.(open := s.open[tx := Tx(e, InsertClaim, None, None, None)])
    case Advance(tx) => if tx in s.open then Execute(s, tx) else s
    case Rollback(tx) => Close(s, tx)
  }

  function After(s: Sys, steps: seq<Step>): Sys {
    Fold(Next, s, steps)
  }

  // ------------------------------------------------------------- invariants

  predicate DistinctClaims(inbox: seq<Claim>) {
    forall i, j :: 0 <= i < j < |inbox| ==> inbox[i].id != inbox[j].id
  }

  predicate DistinctLines(ledger: seq<Line>) {
    forall i, j :: 0 <= i < j < |ledger| ==> ledger[i].key != ledger[j].key
  }

  predicate BalancedLines(ledger: seq<Line>) {
    forall i :: 0 <= i < |ledger| ==> ledger[i].entry.postings != [] && L.Imbalance(ledger[i].entry.postings) == 0
  }

  /** A transaction writes under its own claim, and reaches commit with its entry complete. */
  predicate TxInv(t: Tx) {
    && (t.claim.None? <==> t.pc.InsertClaim?)
    && (t.claim.Some? ==> t.claim.value.id == t.event.id && t.claim.value.row.payload == t.event)
    && (t.pc.InsertClaim? ==> t.update.None?)
    && (t.pc.InsertClaim? || t.pc.ReadPayment? || t.pc.UpdatePayment? || t.pc.InsertEntry? ==> t.line.None?)
    && (t.pc.InsertPostings? ==> Fits(t.pc.draft.entry) && t.line.Some? && t.line.value.key == t.pc.draft.key)
    && (t.pc.Commit? && t.line.Some? ==> Fits(t.line.value.entry))
  }

  ghost predicate Inv(s: Sys) {
    && DistinctClaims(s.inbox) && DistinctLines(s.ledger) && BalancedLines(s.ledger)
    && (forall tx :: tx in s.open ==> TxInv(s.open[tx]))
    && (forall tx :: tx in s.open && s.open[tx].claim.Some? ==> !InboxHas(s.inbox, s.open[tx].claim.value.id))
    && (forall tx :: tx in s.open && s.open[tx].line.Some? ==> !LedgerHas(s.ledger, s.open[tx].line.value.key))
    && (forall tx :: tx in s.open && s.open[tx].claim.Some? ==> !ClaimHeld(s, tx, s.open[tx].claim.value.id))
    && (forall tx :: tx in s.open && s.open[tx].line.Some? ==> !KeyHeld(s, tx, s.open[tx].line.value.key))
  }

  /** Replacing one open transaction by a version that takes no new claim or key. */
  lemma QuietStep(s: Sys, tx: nat, t': Tx)
    requires Inv(s) && tx in s.open && TxInv(t')
    requires t'.claim.Some? && s.open[tx].claim.Some? && t'.claim.value.id == s.open[tx].claim.value.id
    requires t'.line.Some? ==> s.open[tx].line.Some? && t'.line.value.key == s.open[tx].line.value.key
    ensures Inv(s.(open := s.open[tx := t']))
  {
  }

  lemma ClaimStep(s: Sys, tx: nat, t': Tx)
    requires Inv(s) && tx in s.open && TxInv(t') && t'.claim.Some? && t'.line.None?
    requires !InboxHas(s.inbox, t'.claim.value.id) && !ClaimHeld(s, tx, t'.claim.value.id)
    ensures Inv(s.(open := s.open[tx := t']))
  {
  }

  lemma KeyStep(s: Sys, tx: nat, t': Tx)
    requires Inv(s) && tx in s.open && TxInv(t') && t'.claim == s.open[tx].claim && t'.line.Some?
    requires !LedgerHas(s.ledger, t'.line.value.key) && !KeyHeld(s, tx, t'.line.value.key)
    ensures Inv(s.(open := s.open[tx := t']))
  {
  }

  lemma CloseStep(s: Sys, tx: nat)
    requires Inv(s)
    ensures Inv(Close(s, tx))
  {
  }

  lemma {:induction false} PublishStep(s: Sys, tx: nat)
    requires Inv(s) && tx in s.open && s.open[tx].pc.Commit?
    ensures Inv(Publish(s, tx))
  {
    var s' := Publish(s, tx);
    var t := s.open[tx];
    assert TxInv(t);
    assert s'.inbox == s.inbox + [t.claim.value];
    forall o | o in s'.open && s'.open[o].claim.Some?
      ensures !InboxHas(s'.inbox, s'.open[o].claim.value.id)
    {
      assert !ClaimHeld(s, tx, t.claim.value.id);
    }
    forall o | o in s'.open && s'.open[o].line.Some?
      ensures !LedgerHas(s'.ledger, s'.open[o].line.value.key)
    {
      assert t.line.Some? ==> !KeyHeld(s, tx, t.line.value.key);
    }
  }

  lemma {:induction false} BeginStep(s: Sys, tx: nat, e: M.StripeEvent)
    requires Inv(s)
    ensures Inv(Next(s, Begin(tx, e)))
  {
    hide InboxHas, LedgerHas, DistinctClaims, DistinctLines, BalancedLines, Inv;
    if tx !in s.open {
      OpenStep(s, tx, Tx(e, InsertClaim, None, None, None));
    }
  }

  lemma OpenStep(s: Sys, tx: nat, t: Tx)
    requires Inv(s) && tx !in s.open && TxInv(t) && t.claim.None? && t.line.None?
    ensures Inv(s.(open := s.open[tx := t]))
  {
    hide InboxHas, LedgerHas, DistinctClaims, DistinctLines, BalancedLines, TxInv;
    var s' := s.(open := s.open[tx := t]);
    forall o | o in s'.open && s'.open[o].claim.Some? ensures !ClaimHeld(s', o, s'.open[o].claim.value.id) {
      assert !ClaimHeld(s, o, s.open[o].claim.value.id);
    }
    forall o | o in s'.open && s'.open[o].line.Some? ensures !KeyHeld(s', o, s'.open[o].line.value.key) {
      assert !KeyHeld(s, o, s.open[o].line.value.key);
    }
  }

  lemma {:induction false} NextKeepsInv(s: Sys, step: Step)
    requires Inv(s)
    ensures Inv(Next(s, step))
  {
    hide Execute, Inv;
    match step {
      case Begin(tx, e) => BeginStep(s, tx, e);
      case Rollback(tx) => CloseStep(s, tx);
      case Advance(tx) =>
        if tx in s.open {
          ExecuteKeepsInv(s, tx);
        }
    }
  }

  lemma {:induction false} ExecuteKeepsInv(s: Sys, tx: nat)
    requires Inv(s) && tx in s.open
    ensures Inv(Execute(s, tx))
  {
    hide M.MapStripeEvent, M.MapLedgerEvent, W.ChargeDraft, W.LedgerDraft, Inv, InboxHas, LedgerHas,
      ClaimHeld, KeyHeld, RowHeld;
    InvTx(s, tx);
    var t := s.open[tx];
    var s' := Execute(s, tx);
    CloseStep(s, tx);
    match t.pc {
      case InsertClaim =>
        if s' != s && s' != Close(s, tx) {
          ClaimStep(s, tx, s'.open[tx]);
        }
      case ReadPayment => QuietStep(s, tx, s'.open[tx]);
      case UpdatePayment(seen) =>
        if s' != s {
          QuietStep(s, tx, s'.open[tx]);
        }
      case InsertEntry(d) =>
        if s' != s && s' != Close(s, tx) {
          if LedgerHas(s.ledger, d.key) {
            QuietStep(s, tx, s'.open[tx]);
          } else {
            KeyStep(s, tx, s'.open[tx]);
          }
        }
      case InsertPostings(d) => QuietStep(s, tx, s'.open[tx]);
      case Commit => PublishStep(s, tx);
    }
  }

  lemma InvTx(s: Sys, tx: nat)
    requires Inv(s) && tx in s.open
    ensures TxInv(s.open[tx])
  {
  }

  /**
   Whatever the interleaving: one inbox row per event id, one ledger entry per
   (kind, reference) and so one charge per intent, and every committed entry balanced.
   */
  lemma {:induction false} AtMostOneCharge(s: Sys, steps: seq<Step>)
    requires Inv(s)
    ensures Inv(After(s, steps))
    ensures DistinctClaims(After(s, steps).inbox)
    ensures DistinctLines(After(s, steps).ledger)
    ensures BalancedLines(After(s, steps).ledger)
    decreases |steps|
  {
    if steps != [] {
      AtMostOneCharge(s, steps[..|steps| - 1]);
      NextKeepsInv(After(s, steps[..|steps| - 1]), steps[|steps| - 1]);
    }
  }

  /** In particular from a fresh inbox and ledger, with any payments. */
  lemma AtMostOneChargeFromStart(rows: P.Rows, steps: seq<Step>, intent: string)
    ensures var ledger := After(Sys([], rows, [], map[]), steps).ledger;
            forall i, j :: 0 <= i < |ledger| && 0 <= j < |ledger| ==>
              ledger[i].key == L.Key(L.Charge, intent) && ledger[j].key == ledger[i].key ==> i == j
    ensures DistinctClaims(After(Sys([], rows, [], map[]), steps).inbox)
    ensures BalancedLines(After(Sys([], rows, [], map[]), steps).ledger)
  {
    AtMostOneCharge(Sys([], rows, [], map[]), steps);
  }

  /**
   Nothing shows before commit, and a commit shows exactly the committing event: a
   step either leaves the committed tables alone, or is the commit of an open
   transaction and adds the inbox row of its own event, which was not there, with
   the entry and the payment change that transaction prepared.
   */
  lemma {:induction false} OneEffectPerCommit(s: Sys, step: Step)
    requires Inv(s)
    ensures var s' := Next(s, step);
            || (s'.inbox == s.inbox && s'.rows == s.rows && s'.ledger == s.ledger)
            || (step.Advance? && step.tx in s.open && step.tx !in s'.open && Shows(s, s', s.open[step.tx]))
  {
    hide M.MapStripeEvent, M.MapLedgerEvent, W.ChargeDraft, W.LedgerDraft, LedgerHas, ClaimHeld, KeyHeld, RowHeld;
    if step.Advance? && step.tx in s.open && s.open[step.tx].pc.Commit? {
      assert TxInv(s.open[step.tx]);
    }
  }

  /** What the commit of `t` adds to the committed tables. */
  predicate Shows(s: Sys, s': Sys, t: Tx) {
    && !InboxHas(s.inbox, t.event.id) && t.claim.Some? && t.claim.value.id == t.event.id
    && t.claim.value.row.payload == t.event && s'.inbox == s.inbox + [t.claim.value]
    && s'.ledger == s.ledger + (if t.line.Some? then [t.line.value] else [])
    && s'.rows == if t.update.Some? then s.rows[t.update.value.0 := t.update.value.1] else s.rows
  }

  // ------------------------------------------------- a transaction on its own

  function InboxMap(inbox: seq<Claim>): map<string, W.InboxRow> {
    if inbox == [] then map[] else InboxMap(inbox[..|inbox| - 1])[inbox[|inbox| - 1].id := inbox[|inbox| - 1].row]
  }

  function BookMap(ledger: seq<Line>): L.Book {
    if ledger == [] then map[] else BookMap(ledger[..|ledger| - 1])[ledger[|ledger| - 1].key := ledger[|ledger| - 1].entry]
  }

  function ViewOf(s: Sys): W.View {
    W.View(s.rows, InboxMap(s.inbox), BookMap(s.ledger))
  }

  lemma {:induction false} InboxMapKeys(inbox: seq<Claim>, id: string)
    ensures id in InboxMap(inbox) <==> InboxHas(inbox, id)
    decreases |inbox|
  {
    if inbox != [] {
      InboxMapKeys(inbox[..|inbox| - 1], id);
      assert inbox == inbox[..|inbox| - 1] + [inbox[|inbox| - 1]];
    }
  }

  lemma {:induction false} BookMapKeys(ledger: seq<Line>, k: L.Key)
    ensures k in BookMap(ledger) <==> LedgerHas(ledger, k)
    decreases |ledger|
  {
    if ledger != [] {
      BookMapKeys(ledger[..|ledger| - 1], k);
      assert ledger == ledger[..|ledger| - 1] + [ledger[|ledger| - 1]];
    }
  }

  /** `n` statements of one transaction with nothing else going on. */
  function Drive(s: Sys, tx: nat, n: nat): Sys {
    if n == 0 then s else Next(Drive(s, tx, n - 1), Advance(tx))
  }

  lemma {:induction false} DriveClosed(s: Sys, tx: nat, n: nat)
    requires tx !in s.open
    ensures Drive(s, tx, n) == s
  {
    if n > 0 {
      DriveClosed(s, tx, n - 1);
    }
  }

  lemma {:induction false} DriveOnce(s: Sys, tx: nat, n: nat)
    requires n > 0 && tx in s.open
    ensures Drive(s, tx, n) == Drive(Execute(s, tx), tx, n - 1)
  {
    hide Execute;
    if n > 1 {
      DriveOnce(s, tx, n - 1);
    } else {
      assert Drive(s, tx, 0) == s;
    }
  }

  /** The system with `tx` alone in progress. */
  function Alone(s: Sys, tx: nat, t: Tx): Sys {
    s.(open := map[tx := t])
  }

  /** What the transaction publishes when nothing stops it. */
  function Committed(s: Sys, t: Tx): Sys {
    Publish(Alone(s, 0, t), 0)
  }

  lemma NobodyElse(s: Sys, tx: nat, t: Tx, id: string, intent: string, k: L.Key)
    ensures !ClaimHeld(Alone(s, tx, t), tx, id) && !RowHeld(Alone(s, tx, t), tx, intent)
    ensures !KeyHeld(Alone(s, tx, t), tx, k)
  {
  }

  /** The outcome of a transaction that has only its entry left to post. */
  function Posted(s: Sys, t: Tx, d: W.Draft): Sys {
    if !Fits(d.entry) then s
    else if LedgerHas(s.ledger, d.key) then Committed(s, t)
    else Committed(s, t.(line := Some(Line(d.key, d.entry))))
  }

  lemma EntryStep(s: Sys, tx: nat, t: Tx)
    requires s.open == map[] && t.pc.InsertEntry? && t.line.None?
    ensures var d := t.pc.draft;
            Execute(Alone(s, tx, t), tx)
            == if !Fits(d.entry) then s
               else if LedgerHas(s.ledger, d.key) then Alone(s, tx, t.(pc := Commit))
               else Alone(s, tx, t.(line := Some(Line(d.key, d.entry.(postings := []))), pc := InsertPostings(d)))
  {
    hide LedgerHas, KeyHeld, Fits;
    NobodyElse(s, tx, t, "", "", t.pc.draft.key);
    assert Alone(s, tx, t).open - {tx} == s.open;
  }

  lemma PostingsStep(s: Sys, tx: nat, t: Tx)
    requires t.pc.InsertPostings?
    ensures var d := t.pc.draft;
            Execute(Alone(s, tx, t), tx) == Alone(s, tx, t.(line := Some(Line(d.key, d.entry)), pc := Commit))
  {
  }

  /** From the entry insert to the end: the entry is posted unless its key is taken, or everything is dropped. */
  lemma FinishEntry(s: Sys, tx: nat, t: Tx, n: nat)
    requires s.open == map[] && n >= 3 && t.pc.InsertEntry? && t.line.None?
    ensures Drive(Alone(s, tx, t), tx, n) == Posted(s, t, t.pc.draft)
  {
    hide Execute, LedgerHas, Drive;
    var d := t.pc.draft;
    DriveOnce(Alone(s, tx, t), tx, n);
    EntryStep(s, tx, t);
    if !Fits(d.entry) {
      DriveClosed(s, tx, n - 1);
    } else if LedgerHas(s.ledger, d.key) {
      FinishCommit(s, tx, t.(pc := Commit), n - 1);
    } else {
      var t1 := t.(line := Some(Line(d.key, d.entry.(postings := []))), pc := InsertPostings(d));
      DriveOnce(Alone(s, tx, t1), tx, n - 1);
      PostingsStep(s, tx, t1);
      FinishCommit(s, tx, t1.(line := Some(Line(d.key, d.entry)), pc := Commit), n - 2);
    }
  }

  lemma {:induction false} FinishCommit(s: Sys, tx: nat, t: Tx, n: nat)
    requires s.open == map[] && n >= 1 && t.pc.Commit?
    requires t.line.Some? ==> Fits(t.line.value.entry)
    ensures Drive(Alone(s, tx, t), tx, n) == Committed(s, t)
  {
    hide LedgerHas, ClaimHeld, RowHeld, KeyHeld, M.MapStripeEvent, M.MapLedgerEvent;
    DriveOnce(Alone(s, tx, t), tx, n);
    assert Execute(Alone(s, tx, t), tx) == Committed(s, t);
    DriveClosed(Committed(s, t), tx, n - 1);
  }

  /** The outcome of a transaction that claimed its event and carries out a plan. */
  function Planned(s: Sys, t: Tx, p: W.Effect): Sys
  {
    var claim := if t.claim.Some? then Some(t.claim.value.(row := t.claim.value.row.(status := p.status))) else None;
    var update := if p.rows == s.rows || t.event.objectId !in p.rows then None
                  else Some((t.event.objectId, p.rows[t.event.objectId]));
    var t' := t.(claim := claim, update := update);
    if p.draft.None? then Committed(s, t') else Posted(s, t', p.draft.value)
  }

  /** The transaction after its read and its update, when no other is in progress. */
  function Updated(s: Sys, t: Tx): Tx
    requires t.claim.Some? && M.MapStripeEvent(t.event).Some?
  {
    var p := W.Plan(s.rows, t.event);
    if p.status == W.Unmatched then
      t.(claim := Some(t.claim.value.(row := t.claim.value.row.(status := W.Unmatched))), pc := Commit)
    else
      t.(update := if P.ApplyEvent(s.rows, M.MapStripeEvent(t.event).value).0 == P.Applied
                   then Some((t.event.objectId, p.rows[t.event.objectId])) else None,
         pc := if p.draft.Some? then InsertEntry(p.draft.value) else Commit)
  }

  lemma ReadStep(s: Sys, tx: nat, t: Tx)
    requires t.pc.ReadPayment?
    ensures var i := t.event.objectId;
            Execute(Alone(s, tx, t), tx)
            == Alone(s, tx, t.(pc := UpdatePayment(if i in s.rows then Some(s.rows[i]) else None)))
  {
  }

  lemma UpdateStep(s: Sys, tx: nat, t: Tx)
    requires s.open == map[] && t.claim.Some? && t.update.None? && t.line.None? && M.MapStripeEvent(t.event).Some?
    requires t.pc == UpdatePayment(if t.event.objectId in s.rows then Some(s.rows[t.event.objectId]) else None)
    ensures Execute(Alone(s, tx, t), tx) == Alone(s, tx, Updated(s, t))
  {
    hide RowHeld, M.KindByType, M.LedgerKindByType;
    NobodyElse(s, tx, t, "", t.event.objectId, L.Key(L.Charge, ""));
  }

  /** What the updated transaction publishes is what the plan says. */
  lemma UpdatedIsPlanned(s: Sys, t: Tx)
    requires t.claim.Some? && t.claim.value.row.status == W.Processed && t.update.None? && M.MapStripeEvent(t.event).Some?
    ensures var t2 := Updated(s, t);
            && (t2.pc.Commit? || t2.pc.InsertEntry?)
            && ViewOf(if t2.pc.Commit? then Committed(s, t2) else Posted(s, t2, t2.pc.draft))
               == ViewOf(Planned(s, t, W.Plan(s.rows, t.event)))
  {
    hide LedgerHas, M.KindByType, M.LedgerKindByType, Fits, BookMap, InboxMap;
  }

  /** From the claim on, for an event that moves a payment. */
  lemma FinishStatus(s: Sys, tx: nat, t: Tx, n: nat)
    requires s.open == map[] && n >= 5 && t.pc.ReadPayment? && t.claim.Some? && t.update.None? && t.line.None?
    requires M.MapStripeEvent(t.event).Some?
    requires t.claim.value.row.status == W.Processed
    ensures ViewOf(Drive(Alone(s, tx, t), tx, n)) == ViewOf(Planned(s, t, W.Plan(s.rows, t.event)))
    ensures Drive(Alone(s, tx, t), tx, n).open == map[]
  {
    hide Execute, Drive, W.Plan, M.MapStripeEvent, M.MapLedgerEvent, ViewOf, Planned, Posted, Committed, Updated;
    var i := t.event.objectId;
    var t1 := t.(pc := UpdatePayment(if i in s.rows then Some(s.rows[i]) else None));
    DriveOnce(Alone(s, tx, t), tx, n);
    ReadStep(s, tx, t);
    DriveOnce(Alone(s, tx, t1), tx, n - 1);
    UpdateStep(s, tx, t1);
    UpdatedShape(s, t, t1);
    UpdatedIsPlanned(s, t);
    var t2 := Updated(s, t1);
    if t2.pc.Commit? {
      FinishCommit(s, tx, t2, n - 2);
    } else {
      FinishEntry(s, tx, t2, n - 2);
    }
    Closed(s, t2);
  }

  /** The statement counter does not matter to the update, which writes no entry. */
  lemma UpdatedShape(s: Sys, t: Tx, t1: Tx)
    requires t1 == t.(pc := t1.pc) && t.claim.Some? && t.line.None? && M.MapStripeEvent(t.event).Some?
    ensures Updated(s, t1) == Updated(s, t) && Updated(s, t).line.None?
  {
  }

  lemma Closed(s: Sys, t: Tx)
    requires s.open == map[]
    ensures Committed(s, t).open == map[]
    ensures t.pc.InsertEntry? ==> Posted(s, t, t.pc.draft).open == map[]
  {
  }

  /**
   A transaction with no other in progress does exactly what the atomic delivery
   does; after at most six statements it is closed.
   */
  lemma SoloIsDeliver(s: Sys, tx: nat, e: M.StripeEvent)
    requires s.open == map[]
    ensures Drive(Next(s, Begin(tx, e)), tx, 6).open == map[]
    ensures ViewOf(Drive(Next(s, Begin(tx, e)), tx, 6)) == W.DeliverView(ViewOf(s), e).1
  {
    hide ClaimHeld, RowHeld, KeyHeld, M.KindByType, M.LedgerKindByType, InboxHas, LedgerHas, BookMap, InboxMap;
    var t := Tx(e, InsertClaim, None, None, None);
    assert Next(s, Begin(tx, e)) == Alone(s, tx, t);
    NobodyElse(s, tx, t, e.id, "", L.Key(L.Charge, ""));
    DriveOnce(Alone(s, tx, t), tx, 6);
    InboxMapKeys(s.inbox, e.id);
    M.MapsExclusive(e.typ);
    if InboxHas(s.inbox, e.id) {
      assert Execute(Alone(s, tx, t), tx) == s;
      DriveClosed(s, tx, 5);
    } else {
      var s1 := Execute(Alone(s, tx, t), tx);
      var t1 := s1.open[tx];
      assert s1 == Alone(s, tx, t1);
      SoloAfterClaim(s, tx, e, t1);
    }
  }

  lemma CommittedView(s: Sys, t: Tx)
    requires t.claim.Some?
    ensures ViewOf(Committed(s, t))
         == W.View(if t.update.Some? then s.rows[t.update.value.0 := t.update.value.1] else s.rows,
                   InboxMap(s.inbox)[t.claim.value.id := t.claim.value.row],
                   if t.line.Some? then BookMap(s.ledger)[t.line.value.key := t.line.value.entry]
                   else BookMap(s.ledger))
  {
    assert (s.inbox + [t.claim.value])[..|s.inbox|] == s.inbox;
    assert s.ledger + [] == s.ledger;
    if t.line.Some? {
      assert (s.ledger + [t.line.value])[..|s.ledger|] == s.ledger;
    }
  }

  lemma PlannedView(s: Sys, t: Tx)
    requires var e := t.event;
             e.id !in InboxMap(s.inbox) && t.update.None? && t.line.None? && t.claim.Some?
             && t.claim.value.id == e.id && t.claim.value.row.typ == e.typ && t.claim.value.row.payload == e
    ensures ViewOf(Planned(s, t, W.Plan(s.rows, t.event))) == W.DeliverView(ViewOf(s), t.event).1
  {
    hide M.KindByType, M.LedgerKindByType, LedgerHas, InboxMap, BookMap, ViewOf, Publish;
    var e, p := t.event, W.Plan(s.rows, t.event);
    var t' := t.(claim := Some(t.claim.value.(row := t.claim.value.row.(status := p.status))),
                 update := if p.rows == s.rows || e.objectId !in p.rows then None
                           else Some((e.objectId, p.rows[e.objectId])));
    CommittedView(s, t');
    ViewParts(s);
    if p.draft.Some? {
      BookMapKeys(s.ledger, p.draft.value.key);
      CommittedView(s, t'.(line := Some(Line(p.draft.value.key, p.draft.value.entry))));
    }
  }

  lemma ViewParts(s: Sys)
    ensures ViewOf(s) == W.View(s.rows, InboxMap(s.inbox), BookMap(s.ledger))
  {
  }

  lemma SoloAfterClaim(s: Sys, tx: nat, e: M.StripeEvent, t: Tx)
    requires s.open == map[] && e.id !in InboxMap(s.inbox)
    requires var moves, books := M.MapStripeEvent(e).Some?, M.MapLedgerEvent(e).Some?;
             t == Tx(e, if moves then ReadPayment else AfterStatus(e),
                     Some(Claim(e.id, W.InboxRow(e.typ, if moves || books then W.Processed else W.Unhandled, e))),
                     None, None)
    ensures Drive(Alone(s, tx, t), tx, 5).open == map[]
    ensures ViewOf(Drive(Alone(s, tx, t), tx, 5)) == W.DeliverView(ViewOf(s), e).1
  {
    hide ClaimHeld, RowHeld, KeyHeld, M.KindByType, M.LedgerKindByType, LedgerHas, InboxMap, BookMap, Execute;
    PlannedView(s, t);
    if M.MapStripeEvent(e).Some? {
      FinishStatus(s, tx, t, 5);
    } else if M.MapLedgerEvent(e).Some? {
      FinishEntry(s, tx, t, 5);
    } else {
      FinishCommit(s, tx, t, 5);
    }
  }

  /** An open transaction leaves no trace: rolled back at any point, the system is as it was before it. */
  lemma {:induction false} RollbackLeavesNothing(s: Sys, tx: nat, e: M.StripeEvent, n: nat)
    requires tx !in s.open
    ensures var d := Drive(Next(s, Begin(tx, e)), tx, n);
            tx in d.open ==> Next(d, Rollback(tx)) == s
  {
    hide Execute;
    if n > 0 {
      RollbackLeavesNothing(s, tx, e, n - 1);
      var d := Drive(Next(s, Begin(tx, e)), tx, n - 1);
      if tx in d.open {
        OnlyCommitShows(d, tx);
      }
    }
  }

  /** A statement that leaves its transaction open changes nothing but that transaction. */
  lemma OnlyCommitShows(s: Sys, tx: nat)
    requires tx in s.open
    ensures tx in Execute(s, tx).open ==> Close(Execute(s, tx), tx) == Close(s, tx)
  {
    hide ClaimHeld, RowHeld, KeyHeld, M.MapStripeEvent, M.MapLedgerEvent, InboxHas, LedgerHas, Fits;
  }

}
