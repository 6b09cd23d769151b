/**
 Delivery confluence. A set of provider events may be delivered in any order and
 with any repetition. This module says exactly when the order cannot be seen in
 the payment statuses, the inbox and the ledger.
 */
module Confluence {
  import opened Prelude
  import L = Ledger
  import M = StripeMapping
  import P = Payments
  import opened Webhook

  type Event = M.StripeEvent

  /** The event updates the status of intent `i`. */
  predicate Moves(e: Event, i: string) {
    M.MapStripeEvent(e).Some? && M.MapStripeEvent(e).value.intent == i
  }

  /** The status an event that moves a payment gives it. */
  function Target(e: Event): P.PaymentStatus
    requires M.MapStripeEvent(e).Some?
  {
    P.StatusOf(M.MapStripeEvent(e).value.kind)
  }

  predicate Settles(e: Event, i: string) {
    Moves(e, i) && P.Terminal(Target(e))
  }

  /** The event posts a refund or a dispute. */
  predicate Books(e: Event) {
    M.MapLedgerEvent(e).Some?
  }

  function BookKey(e: Event): L.Key
    requires Books(e)
  {
    LedgerDraft(M.MapLedgerEvent(e).value).key
  }

  function BookEntry(e: Event): L.Entry
    requires Books(e)
  {
    LedgerDraft(M.MapLedgerEvent(e).value).entry
  }

  /** The event's transaction does not throw: the ledger refuses a malformed currency code. */
  predicate Accepted(e: Event) {
    Books(e) ==> |e.currency| == L.CURRENCY_LENGTH
  }

  /** Nothing of the set has been seen: intents that have a row are freshly created. */
  ghost predicate Fresh(v: View, es: set<Event>) {
    && (forall i :: i in v.rows ==> P.RowAllowed(v.rows[i].amount, v.rows[i].currency))
    && (forall e :: e in es ==> e.id !in v.inbox)
    && (forall e, i :: e in es && i in v.rows && Moves(e, i) ==>
          v.rows[i].status == P.Created && v.rows[i].lastAt == None && L.Key(L.Charge, i) !in v.book)
    && (forall e :: e in es && Books(e) ==> BookKey(e) !in v.book)
  }

  ghost predicate Covers(s: seq<Event>, es: set<Event>) {
    forall e :: e in s <==> e in es
  }

  /** Equal statuses (and amounts, owners, keys), inbox rows and ledger; only event times may differ. */
  predicate SameBooks(v: View, w: View) {
    && v.inbox == w.inbox && v.book == w.book && v.rows.Keys == w.rows.Keys
    && forall i :: i in v.rows ==> v.rows[i].(lastAt := None) == w.rows[i].(lastAt := None)
  }

  ghost predicate Confluent(v: View, es: set<Event>) {
    forall s, t :: Covers(s, es) && Covers(t, es) ==> SameBooks(DeliverAllView(v, s), DeliverAllView(v, t))
  }

  ghost predicate UniqueIds(es: set<Event>) {
    forall e, f :: e in es && f in es && Accepted(e) && Accepted(f) && e.id == f.id ==> e == f
  }

  ghost predicate OneVerdict(v: View, es: set<Event>) {
    forall e, f, i :: e in es && f in es && i in v.rows && Settles(e, i) && Settles(f, i) ==>
      Target(e) == Target(f)
  }

  /** If an intent has a terminal event, one of them is no earlier than any given processing event. */
  ghost predicate VerdictIsLatest(v: View, es: set<Event>) {
    forall p, e, i :: p in es && e in es && i in v.rows && Moves(p, i) && !Settles(p, i) && Settles(e, i) ==>
      exists f :: f in es && Settles(f, i) && f.created >= p.created
  }

  ghost predicate OneEntryPerReference(es: set<Event>) {
    forall e, f :: e in es && f in es && Books(e) && Books(f) && Accepted(e) && Accepted(f)
                   && BookKey(e) == BookKey(f) ==>
      e.amount == f.amount && e.currency == f.currency
  }

  /** The exact condition: every clause compares events with each other, none runs the system. */
  ghost predicate Coherent(v: View, es: set<Event>) {
    UniqueIds(es) && OneVerdict(v, es) && VerdictIsLatest(v, es) && OneEntryPerReference(es)
  }

  // ------------------------------------------------------------ sufficiency

  ghost predicate Touched(seen: set<Event>, i: string) {
    exists e :: e in seen && Moves(e, i)
  }

  ghost predicate SettledAs(seen: set<Event>, i: string, s: P.PaymentStatus) {
    exists e :: e in seen && Settles(e, i) && Target(e) == s
  }

  ghost predicate ProcessingAt(seen: set<Event>, i: string, at: int) {
    exists e :: e in seen && Moves(e, i) && !Settles(e, i) && e.created * 1000 == at
  }

  ghost predicate SettlesBefore(seen: set<Event>, i: string, at: int) {
    forall e :: e in seen && Settles(e, i) ==> e.created * 1000 < at
  }

  /** What is known of payment row `i` after the events `seen` were delivered in some order. */
  ghost predicate RowTracks(v: View, seen: set<Event>, i: string, row: P.PaymentRow)
    requires i in v.rows
  {
    && row.(status := v.rows[i].status, lastAt := v.rows[i].lastAt) == v.rows[i]
    && if !Touched(seen, i) then
         row == v.rows[i]
       else if P.Terminal(row.status) then
         SettledAs(seen, i, row.status)
       else
         && row.status == P.Processing && row.lastAt.Some?
         && ProcessingAt(seen, i, row.lastAt.value) && SettlesBefore(seen, i, row.lastAt.value)
  }

  lemma SeenGrows(seen: set<Event>, e: Event, i: string, s: P.PaymentStatus, at: int)
    ensures Touched(seen + {e}, i) <==> Touched(seen, i) || Moves(e, i)
    ensures SettledAs(seen + {e}, i, s) <==> SettledAs(seen, i, s) || (Settles(e, i) && Target(e) == s)
    ensures ProcessingAt(seen + {e}, i, at)
       <==> ProcessingAt(seen, i, at) || (Moves(e, i) && !Settles(e, i) && e.created * 1000 == at)
    ensures SettlesBefore(seen + {e}, i, at)
       <==> SettlesBefore(seen, i, at) && (Settles(e, i) ==> e.created * 1000 < at)
  {
  }

  ghost predicate RowsTrack(v: View, seen: set<Event>, rows: P.Rows) {
    rows.Keys == v.rows.Keys && forall i :: i in rows ==> RowTracks(v, seen, i, rows[i])
  }

  ghost predicate ClaimedBy(seen: set<Event>, id: string) {
    exists e :: e in seen && Accepted(e) && e.id == id
  }

  ghost predicate InboxTracks(v: View, seen: set<Event>, inbox: map<string, InboxRow>) {
    && (forall id :: id in v.inbox ==> id in inbox && inbox[id] == v.inbox[id])
    && (forall e :: e in seen && Accepted(e) ==>
          e.id in inbox && inbox[e.id] == InboxRow(e.typ, Plan(v.rows, e).status, e))
    && (forall id :: id in inbox && id !in v.inbox ==> ClaimedBy(seen, id))
  }

  ghost predicate BookedBy(seen: set<Event>, k: L.Key) {
    exists e :: e in seen && Books(e) && Accepted(e) && BookKey(e) == k
  }

  /** Whether ledger key `k` is taken, and by what, after the events `seen`. */
  ghost predicate KeyTracks(v: View, seen: set<Event>, rows: P.Rows, book: L.Book, k: L.Key)
    requires rows.Keys == v.rows.Keys
  {
    if k in v.book then
      k in book && book[k] == v.book[k]
    else if k.kind == L.Charge then
      && (k in book <==> k.reference in rows && Touched(seen, k.reference)
                         && rows[k.reference].status == P.Succeeded)
      && (k in book ==> book[k] == ChargeDraft(k.reference, v.rows[k.reference]).entry)
    else
      && (k in book <==> BookedBy(seen, k))
      && (forall e :: e in seen && Books(e) && Accepted(e) && BookKey(e) == k ==> book[k] == BookEntry(e))
  }

  ghost predicate BookTracks(v: View, seen: set<Event>, rows: P.Rows, book: L.Book)
    requires rows.Keys == v.rows.Keys
  {
    forall k :: KeyTracks(v, seen, rows, book, k)
  }

  ghost predicate Tracks(v: View, seen: set<Event>, now: View) {
    RowsTrack(v, seen, now.rows) && InboxTracks(v, seen, now.inbox)
    && BookTracks(v, seen, now.rows, now.book)
  }

  /** One payment row under one event. */
  function MoveRow(row: P.PaymentRow, e: Event): P.PaymentRow
    requires M.MapStripeEvent(e).Some?
  {
    if P.Terminal(row.status) || (row.lastAt.Some? && row.lastAt.value > e.created * 1000) then
      row
    else
      row.(status := Target(e), lastAt := Some(e.created * 1000))
  }

  lemma PlanKeepsKeys(rows: P.Rows, e: Event)
    ensures Plan(rows, e).rows.Keys == rows.Keys
  {
  }

  lemma PlanRow(rows: P.Rows, e: Event, i: string)
    requires i in rows
    ensures i in Plan(rows, e).rows
    ensures Plan(rows, e).rows[i] == if Moves(e, i) then MoveRow(rows[i], e) else rows[i]
  {
  }

  lemma RowStep(v: View, seen: set<Event>, i: string, row: P.PaymentRow, e: Event)
    requires i in v.rows && RowTracks(v, seen, i, row) && Moves(e, i)
    requires v.rows[i].status == P.Created && v.rows[i].lastAt == None
    ensures RowTracks(v, seen + {e}, i, MoveRow(row, e))
  {
  }

  lemma RowFrame(v: View, seen: set<Event>, i: string, row: P.PaymentRow, e: Event)
    requires i in v.rows && RowTracks(v, seen, i, row) && !Moves(e, i)
    ensures RowTracks(v, seen + {e}, i, row)
  {
  }

  lemma {:induction false} RowsStep(v: View, es: set<Event>, seen: set<Event>, rows: P.Rows, e: Event)
    requires Fresh(v, es) && e in es && RowsTrack(v, seen, rows)
    ensures RowsTrack(v, seen + {e}, Plan(rows, e).rows)
  {
    hide RowTracks, M.KindByType, M.LedgerKindByType;
    var rows' := Plan(rows, e).rows;
    forall i | i in rows' ensures RowTracks(v, seen + {e}, i, rows'[i]) {
      PlanRow(rows, e, i);
      if Moves(e, i) {
        RowStep(v, seen, i, rows[i], e);
      } else {
        RowFrame(v, seen, i, rows[i], e);
      }
    }
  }

  lemma InboxStep(v: View, seen: set<Event>, inbox: map<string, InboxRow>, e: Event)
    requires InboxTracks(v, seen, inbox) && e.id !in inbox && Accepted(e)
    ensures InboxTracks(v, seen + {e}, inbox[e.id := InboxRow(e.typ, Plan(v.rows, e).status, e)])
  {
  }

  /** The ledger after the entry an event asks for, if any, was posted. */
  function BookAfter(book: L.Book, draft: Option<Draft>): L.Book {
    match draft
    case None => book
    case Some(d) => L.PostBook(book, d.key, d.entry).1
  }

  /** What an event posts, said of the row it meets. */
  lemma {:induction false} PlanDraft(rows: P.Rows, e: Event)
    ensures var d := Plan(rows, e).draft;
            && (d.Some? && d.value.key.kind == L.Charge <==>
                  e.objectId in rows && Moves(e, e.objectId) && Target(e) == P.Succeeded
                  && !P.Terminal(rows[e.objectId].status)
                  && MoveRow(rows[e.objectId], e).status == P.Succeeded)
            && (d.Some? && d.value.key.kind == L.Charge ==> d.value == ChargeDraft(e.objectId, rows[e.objectId]))
            && (d.Some? && d.value.key.kind != L.Charge <==> Books(e))
            && (Books(e) ==> d.value == Draft(BookKey(e), BookEntry(e)))
  {
    hide M.KindByType, M.LedgerKindByType;
    M.MapsExclusive(e.typ);
  }

  lemma AcceptedPosts(rows: P.Rows, e: Event)
    requires Accepted(e) && forall i :: i in rows ==> |rows[i].currency| == 3
    ensures Plan(rows, e).draft.Some? ==>
              var d := Plan(rows, e).draft.value;
              |d.entry.currency| == 3 && d.entry.postings != [] && L.Imbalance(d.entry.postings) == 0
  {
    hide M.KindByType, M.LedgerKindByType;
    if Plan(rows, e).draft.Some? {
      var k := Plan(rows, e).draft.value.key.kind;
      L.TemplateBalances(k, if M.MapStripeEvent(e).Some? then rows[e.objectId].amount else e.amount);
    }
  }

  lemma {:induction false} ChargeKeyStep(v: View, seen: set<Event>, rows: P.Rows, book: L.Book, e: Event, k: L.Key)
    requires rows.Keys == v.rows.Keys && KeyTracks(v, seen, rows, book, k) && RowsTrack(v, seen, rows)
    requires Accepted(e) && forall i :: i in rows ==> |rows[i].currency| == 3
    requires k !in v.book && k.kind == L.Charge
    requires k.reference in rows && Moves(e, k.reference) ==>
               v.rows[k.reference].status == P.Created && v.rows[k.reference].lastAt == None
    ensures Plan(rows, e).rows.Keys == v.rows.Keys
    ensures KeyTracks(v, seen + {e}, Plan(rows, e).rows, BookAfter(book, Plan(rows, e).draft), k)
  {
    var i := k.reference;
    hide M.KindByType, M.LedgerKindByType, Touched, SettledAs, ProcessingAt, SettlesBefore, BookedBy, Plan;
    PlanDraft(rows, e);
    AcceptedPosts(rows, e);
    PlanKeepsKeys(rows, e);
    SeenGrows(seen, e, i, P.Succeeded, 0);
    if i in rows {
      PlanRow(rows, e, i);
      assert RowTracks(v, seen, i, rows[i]);
    }
  }

  lemma OtherKeyStep(v: View, es: set<Event>, seen: set<Event>, rows: P.Rows, book: L.Book, e: Event, k: L.Key)
    requires rows.Keys == v.rows.Keys && KeyTracks(v, seen, rows, book, k)
    requires Accepted(e) && forall i :: i in rows ==> |rows[i].currency| == 3
    requires seen <= es && e in es && OneEntryPerReference(es)
    requires k in v.book || k.kind != L.Charge
    ensures Plan(rows, e).rows.Keys == v.rows.Keys
    ensures KeyTracks(v, seen + {e}, Plan(rows, e).rows, BookAfter(book, Plan(rows, e).draft), k)
  {
    hide M.KindByType, M.LedgerKindByType, Plan, Touched;
    PlanDraft(rows, e);
    AcceptedPosts(rows, e);
    PlanKeepsKeys(rows, e);
    assert e in seen + {e};
    if BookedBy(seen, k) {
      var f :| f in seen && Books(f) && Accepted(f) && BookKey(f) == k;
      assert f in seen + {e};
    }
  }

  lemma BookStep(v: View, es: set<Event>, seen: set<Event>, rows: P.Rows, book: L.Book, e: Event)
    requires Fresh(v, es) && OneEntryPerReference(es) && seen <= es && e in es && Accepted(e)
    requires RowsTrack(v, seen, rows) && BookTracks(v, seen, rows, book)
    requires forall i :: i in rows ==> |rows[i].currency| == 3
    requires Plan(rows, e).rows.Keys == v.rows.Keys
    ensures BookTracks(v, seen + {e}, Plan(rows, e).rows, BookAfter(book, Plan(rows, e).draft))
  {
    hide KeyTracks, Plan, M.KindByType, M.LedgerKindByType;
    forall k ensures KeyTracks(v, seen + {e}, Plan(rows, e).rows, BookAfter(book, Plan(rows, e).draft), k) {
      assert KeyTracks(v, seen, rows, book, k);
      if k !in v.book && k.kind == L.Charge {
        ChargeKeyStep(v, seen, rows, book, e, k);
      } else {
        OtherKeyStep(v, es, seen, rows, book, e, k);
      }
    }
  }

  lemma RejectedStep(v: View, seen: set<Event>, now: View, e: Event)
    requires Tracks(v, seen, now) && !Accepted(e)
    ensures Tracks(v, seen + {e}, now)
  {
    hide M.KindByType, M.LedgerKindByType, RowTracks, SettledAs, ProcessingAt, SettlesBefore;
    M.MapsExclusive(e.typ);
    assert forall i :: !Moves(e, i);
    forall i | i in now.rows ensures RowTracks(v, seen + {e}, i, now.rows[i]) {
      RowFrame(v, seen, i, now.rows[i], e);
    }
    assert forall id :: ClaimedBy(seen, id) ==> ClaimedBy(seen + {e}, id);
    forall k ensures KeyTracks(v, seen + {e}, now.rows, now.book, k) {
      assert KeyTracks(v, seen, now.rows, now.book, k);
      SeenGrows(seen, e, k.reference, P.Succeeded, 0);
      assert BookedBy(seen + {e}, k) <==> BookedBy(seen, k);
    }
  }

  lemma DeliverAccepted(v: View, e: Event)
    requires e.id !in v.inbox
    requires forall i :: i in v.rows ==> |v.rows[i].currency| == 3
    ensures DeliverView(v, e) == if Accepted(e)
      then (true, View(Plan(v.rows, e).rows, v.inbox[e.id := InboxRow(e.typ, Plan(v.rows, e).status, e)],
                       BookAfter(v.book, Plan(v.rows, e).draft)))
      else (false, v)
  {
    hide M.KindByType, M.LedgerKindByType;
    M.MapsExclusive(e.typ);
    if Accepted(e) {
      AcceptedPosts(v.rows, e);
    }
  }

  lemma ReplayIsNothing(v: View, e: Event)
    requires e.id in v.inbox
    ensures DeliverView(v, e) == (true, v)
  {
  }

  lemma TrackStep(v: View, es: set<Event>, seen: set<Event>, now: View, e: Event)
    requires Fresh(v, es) && UniqueIds(es) && OneEntryPerReference(es)
    requires seen <= es && e in es && Tracks(v, seen, now)
    ensures Tracks(v, seen + {e}, DeliverView(now, e).1)
  {
    hide M.KindByType, M.LedgerKindByType, KeyTracks, Touched, SettledAs, ProcessingAt, SettlesBefore, Plan;
    forall i | i in now.rows ensures |now.rows[i].currency| == 3 {
      assert RowTracks(v, seen, i, now.rows[i]);
    }
    if !Accepted(e) {
      if e.id !in now.inbox {
        DeliverAccepted(now, e);
      }
      RejectedStep(v, seen, now, e);
    } else if e.id in now.inbox {
      assert ClaimedBy(seen, e.id);
      var f :| f in seen && Accepted(f) && f.id == e.id;
      assert e == f && seen + {e} == seen;
    } else {
      DeliverAccepted(now, e);
      RowsStep(v, es, seen, now.rows, e);
      SameStatus(v.rows, now.rows, e);
      InboxStep(v, seen, now.inbox, e);
      BookStep(v, es, seen, now.rows, now.book, e);
    }
  }

  lemma SameStatus(a: P.Rows, b: P.Rows, e: Event)
    requires a.Keys == b.Keys
    ensures Plan(a, e).status == Plan(b, e).status
  {
  }

  ghost function Elements(s: seq<Event>): set<Event> {
    set e | e in s
  }

  lemma {:induction false} DeliveriesTrack(v: View, es: set<Event>, s: seq<Event>)
    requires Fresh(v, es) && UniqueIds(es) && OneEntryPerReference(es) && Elements(s) <= es
    ensures Tracks(v, Elements(s), DeliverAllView(v, s))
    decreases |s|
  {
    if s == [] {
    } else {
      var n := |s| - 1;
      assert s == s[..n] + [s[n]];
      assert Elements(s) == Elements(s[..n]) + {s[n]};
      DeliveriesTrack(v, es, s[..n]);
      TrackStep(v, es, Elements(s[..n]), DeliverAllView(v, s[..n]), s[n]);
    }
  }

  lemma RowSettled(v: View, es: set<Event>, i: string, a: P.PaymentRow, b: P.PaymentRow)
    requires Coherent(v, es) && i in v.rows && RowTracks(v, es, i, a) && RowTracks(v, es, i, b)
    ensures a.(lastAt := None) == b.(lastAt := None)
  {
  }

  /** Once everything is delivered, the latest terminal event cannot have been dropped as stale. */
  lemma StatusSettled(v: View, es: set<Event>, i: string, row: P.PaymentRow, e: Event)
    requires Coherent(v, es) && i in v.rows && RowTracks(v, es, i, row)
    requires e in es && Settles(e, i)
    ensures row.status == Target(e)
  {
  }

  lemma SettledAlike(v: View, es: set<Event>, a: View, b: View)
    requires Fresh(v, es) && Coherent(v, es) && Tracks(v, es, a) && Tracks(v, es, b)
    ensures SameBooks(a, b)
  {
    forall i | i in a.rows ensures a.rows[i].(lastAt := None) == b.rows[i].(lastAt := None) {
      RowSettled(v, es, i, a.rows[i], b.rows[i]);
    }
    InboxAlike(v, es, a, b);
    InboxAlike(v, es, b, a);
    BookAlike(v, es, a, b);
    BookAlike(v, es, b, a);
  }

  lemma InboxAlike(v: View, es: set<Event>, a: View, b: View)
    requires Tracks(v, es, a) && Tracks(v, es, b)
    ensures forall id :: id in a.inbox ==> id in b.inbox && a.inbox[id] == b.inbox[id]
  {
  }

  lemma BookAlike(v: View, es: set<Event>, a: View, b: View)
    requires Tracks(v, es, a) && Tracks(v, es, b)
    requires forall i :: i in a.rows ==> a.rows[i].(lastAt := None) == b.rows[i].(lastAt := None)
    ensures forall k :: k in a.book ==> k in b.book && a.book[k] == b.book[k]
  {
    hide Touched, InboxTracks, RowTracks, M.KindByType, M.LedgerKindByType;
    forall k | k in a.book ensures k in b.book && a.book[k] == b.book[k] {
      assert KeyTracks(v, es, a.rows, a.book, k) && KeyTracks(v, es, b.rows, b.book, k);
      if k !in v.book && k.kind == L.Charge {
        var i := k.reference;
        assert a.rows[i].(lastAt := None).status == b.rows[i].(lastAt := None).status;
      }
    }
  }

  /** However coherent events are delivered, a payment with a terminal event ends with its status. */
  lemma DeliveredStatus(v: View, es: set<Event>, s: seq<Event>, i: string, e: Event)
    requires Fresh(v, es) && Coherent(v, es) && Covers(s, es)
    requires i in v.rows && e in es && Settles(e, i)
    ensures i in DeliverAllView(v, s).rows && DeliverAllView(v, s).rows[i].status == Target(e)
  {
    hide Moves, Target, Fresh, InboxTracks, BookTracks;
    assert Elements(s) == es;
    DeliveriesTrack(v, es, s);
    StatusSettled(v, es, i, DeliverAllView(v, s).rows[i], e);
  }

  /** Coherent events end the same way in every order and under every repetition. */
  lemma {:induction false} CoherentIsConfluent(v: View, es: set<Event>)
    requires Fresh(v, es) && Coherent(v, es)
    ensures Confluent(v, es)
  {
    forall s, t | Covers(s, es) && Covers(t, es)
      ensures SameBooks(DeliverAllView(v, s), DeliverAllView(v, t))
    {
      assert Elements(s) == es == Elements(t);
      DeliveriesTrack(v, es, s);
      DeliveriesTrack(v, es, t);
      SettledAlike(v, es, DeliverAllView(v, s), DeliverAllView(v, t));
    }
  }

  // -------------------------------------------------------------- necessity

  ghost function Listing(es: set<Event>): (s: seq<Event>)
    ensures Covers(s, es)
  {
    if es == {} then
      []
    else
      var e :| e in es;
      [e] + Listing(es - {e})
  }

  /** A delivery order that starts with `e` and then goes through the whole set. */
  ghost function StartingWith(e: Event, es: set<Event>): (s: seq<Event>)
    requires e in es
    ensures Covers(s, es)
  {
    [e] + Listing(es)
  }

  lemma {:induction false} FirstThenRest(v: View, e: Event, s: seq<Event>)
    ensures DeliverAllView(v, [e] + s) == DeliverAllView(DeliverView(v, e).1, s)
    decreases |s|
  {
    hide DeliverView;
    if s == [] {
      assert ([e] + s)[..0] == [];
      assert DeliverAllView(v, []) == v;
      assert [e] + s == [e];
    } else {
      FirstThenRest(v, e, s[..|s| - 1]);
      assert ([e] + s)[..|[e] + s| - 1] == [e] + s[..|s| - 1];
    }
  }

  /** What no later delivery undoes: inbox rows, ledger entries, terminal statuses. */
  ghost predicate Kept(v: View, w: View) {
    && (forall id :: id in v.inbox ==> id in w.inbox && w.inbox[id] == v.inbox[id])
    && (forall k :: k in v.book ==> k in w.book && w.book[k] == v.book[k])
    && (forall i :: i in v.rows ==> i in w.rows && (P.Terminal(v.rows[i].status) ==> w.rows[i] == v.rows[i]))
  }

  lemma {:induction false} DeliverKeeps(v: View, e: Event)
    ensures Kept(v, DeliverView(v, e).1)
  {
    hide M.KindByType, M.LedgerKindByType;
  }

  lemma {:induction false} DeliverAllKeeps(v: View, s: seq<Event>)
    ensures Kept(v, DeliverAllView(v, s))
    decreases |s|
  {
    hide DeliverView;
    if s != [] {
      DeliverAllKeeps(v, s[..|s| - 1]);
      DeliverKeeps(DeliverAllView(v, s[..|s| - 1]), s[|s| - 1]);
    }
  }

  /** Row `i` is waiting at a time later than every terminal event it can still meet. */
  ghost predicate Stuck(v: View, i: string, at: int) {
    i in v.rows && !P.Terminal(v.rows[i].status) && v.rows[i].lastAt.Some? && v.rows[i].lastAt.value >= at
  }

  lemma {:induction false} StaysStuck(v: View, i: string, at: int, s: seq<Event>)
    requires Stuck(v, i, at)
    requires forall e :: e in s && Settles(e, i) ==> e.created * 1000 < at
    ensures Stuck(DeliverAllView(v, s), i, at)
    decreases |s|
  {
    hide M.KindByType, M.LedgerKindByType;
    if s != [] {
      var e := s[|s| - 1];
      assert e in s;
      var now := DeliverAllView(v, s[..|s| - 1]);
      StaysStuck(v, i, at, s[..|s| - 1]);
      PlanRow(now.rows, e, i);
    }
  }

  /** A first delivery of an accepted event takes effect, and the effect lasts to the end. */
  lemma FirstWins(v: View, es: set<Event>, e: Event)
    requires Fresh(v, es) && e in es && Accepted(e)
    ensures Kept(DeliverView(v, e).1, DeliverAllView(v, StartingWith(e, es)))
    ensures DeliverView(v, e) == (true, View(Plan(v.rows, e).rows,
              v.inbox[e.id := InboxRow(e.typ, Plan(v.rows, e).status, e)],
              BookAfter(v.book, Plan(v.rows, e).draft)))
  {
    hide M.KindByType, M.LedgerKindByType, DeliverView, Plan;
    FirstThenRest(v, e, Listing(es));
    DeliverAllKeeps(DeliverView(v, e).1, Listing(es));
    DeliverAccepted(v, e);
  }

  lemma SameIdDiverges(v: View, es: set<Event>, e: Event, f: Event)
    requires Fresh(v, es) && e in es && f in es && Accepted(e) && Accepted(f) && e.id == f.id && e != f
    ensures !Confluent(v, es)
  {
    hide M.KindByType, M.LedgerKindByType, Plan;
    FirstWins(v, es, e);
    FirstWins(v, es, f);
    var a, b := DeliverAllView(v, StartingWith(e, es)), DeliverAllView(v, StartingWith(f, es));
    assert DeliverView(v, e).1.inbox[e.id].payload == e && DeliverView(v, f).1.inbox[f.id].payload == f;
    assert a.inbox[e.id].payload == e && b.inbox[e.id].payload == f;
    Diverge(v, es, e, f);
  }

  /** Two orders with different books refute confluence. */
  lemma Diverge(v: View, es: set<Event>, e: Event, f: Event)
    requires e in es && f in es
    requires !SameBooks(DeliverAllView(v, StartingWith(e, es)), DeliverAllView(v, StartingWith(f, es)))
    ensures !Confluent(v, es)
  {
  }

  /** A payment event is never refused, and delivered first it decides the row. */
  lemma FirstMove(v: View, es: set<Event>, e: Event, i: string)
    requires Fresh(v, es) && e in es && i in v.rows && Moves(e, i)
    ensures Accepted(e)
    ensures i in DeliverView(v, e).1.rows
    ensures DeliverView(v, e).1.rows[i].status == Target(e)
    ensures DeliverView(v, e).1.rows[i].lastAt == Some(e.created * 1000)
  {
    hide M.KindByType, M.LedgerKindByType, DeliverView, Plan;
    M.MapsExclusive(e.typ);
    FirstWins(v, es, e);
    PlanRow(v.rows, e, i);
  }

  lemma TwoVerdictsDiverge(v: View, es: set<Event>, e: Event, f: Event, i: string)
    requires Fresh(v, es) && e in es && f in es && i in v.rows
    requires Settles(e, i) && Settles(f, i) && Target(e) != Target(f)
    ensures !Confluent(v, es)
  {
    hide M.KindByType, M.LedgerKindByType, DeliverView, Plan;
    FirstMove(v, es, e, i);
    FirstMove(v, es, f, i);
    FirstWins(v, es, e);
    FirstWins(v, es, f);
    var a, b := DeliverAllView(v, StartingWith(e, es)), DeliverAllView(v, StartingWith(f, es));
    assert a.rows[i].(lastAt := None).status != b.rows[i].(lastAt := None).status;
    Diverge(v, es, e, f);
  }

  lemma StaleVerdictDiverges(v: View, es: set<Event>, p: Event, e: Event, i: string)
    requires Fresh(v, es) && p in es && e in es && i in v.rows
    requires Moves(p, i) && !Settles(p, i) && Settles(e, i)
    requires forall f :: f in es && Settles(f, i) ==> f.created < p.created
    ensures !Confluent(v, es)
  {
    hide M.KindByType, M.LedgerKindByType, DeliverView, Plan;
    FirstMove(v, es, p, i);
    FirstMove(v, es, e, i);
    FirstWins(v, es, e);
    FirstThenRest(v, p, Listing(es));
    StaysStuck(DeliverView(v, p).1, i, p.created * 1000, Listing(es));
    var a, b := DeliverAllView(v, StartingWith(p, es)), DeliverAllView(v, StartingWith(e, es));
    assert i in a.rows && i in b.rows;
    assert a.rows[i].(lastAt := None).status != b.rows[i].(lastAt := None).status;
    Diverge(v, es, p, e);
  }

  lemma TwoEntriesDiverge(v: View, es: set<Event>, e: Event, f: Event)
    requires Fresh(v, es) && e in es && f in es && Books(e) && Books(f) && Accepted(e) && Accepted(f)
    requires BookKey(e) == BookKey(f) && !(e.amount == f.amount && e.currency == f.currency)
    ensures !Confluent(v, es)
  {
    hide M.KindByType, M.LedgerKindByType, DeliverView, Plan;
    FirstWins(v, es, e);
    FirstWins(v, es, f);
    PlanDraft(v.rows, e);
    PlanDraft(v.rows, f);
    Accepts(v, es);
    AcceptedPosts(v.rows, e);
    AcceptedPosts(v.rows, f);
    var k := BookKey(e);
    assert BookEntry(e).postings[0].amount == e.amount && BookEntry(f).postings[0].amount == f.amount;
    assert BookEntry(e) != BookEntry(f);
    var a, b := DeliverAllView(v, StartingWith(e, es)), DeliverAllView(v, StartingWith(f, es));
    assert DeliverView(v, e).1.book[k] == BookEntry(e) && DeliverView(v, f).1.book[k] == BookEntry(f);
    assert a.book[k] == BookEntry(e) && b.book[k] == BookEntry(f);
    Diverge(v, es, e, f);
  }

  lemma Accepts(v: View, es: set<Event>)
    requires Fresh(v, es)
    ensures forall i :: i in v.rows ==> |v.rows[i].currency| == 3
  {
  }

  /** Confluence holds exactly when the events are coherent. */
  lemma ConfluentIffCoherent(v: View, es: set<Event>)
    requires Fresh(v, es)
    ensures Confluent(v, es) <==> Coherent(v, es)
  {
    hide M.KindByType, M.LedgerKindByType, Confluent;
    if Coherent(v, es) {
      CoherentIsConfluent(v, es);
    } else if !UniqueIds(es) {
      var e, f :| e in es && f in es && Accepted(e) && Accepted(f) && e.id == f.id && e != f;
      SameIdDiverges(v, es, e, f);
    } else if !OneVerdict(v, es) {
      var e, f, i :| e in es && f in es && i in v.rows && Settles(e, i) && Settles(f, i) && Target(e) != Target(f);
      TwoVerdictsDiverge(v, es, e, f, i);
    } else if !VerdictIsLatest(v, es) {
      var p, e, i :| p in es && e in es && i in v.rows && Moves(p, i) && !Settles(p, i) && Settles(e, i)
                     && !exists f :: f in es && Settles(f, i) && f.created >= p.created;
      StaleVerdictDiverges(v, es, p, e, i);
    } else {
      var e, f :| e in es && f in es && Books(e) && Books(f) && Accepted(e) && Accepted(f)
                  && BookKey(e) == BookKey(f) && !(e.amount == f.amount && e.currency == f.currency);
      TwoEntriesDiverge(v, es, e, f);
    }
  }

  /** The same for the tables: coherent deliveries leave equal statuses, inboxes and ledgers. */
  lemma {:induction false} DeliveriesConverge(db: Db, es: set<Event>, s: seq<Event>, t: seq<Event>)
    requires L.Integrity(db.ledger) && Fresh(ViewOf(db), es) && Coherent(ViewOf(db), es)
    requires Covers(s, es) && Covers(t, es)
    ensures SameBooks(ViewOf(DeliverAll(db, s)), ViewOf(DeliverAll(db, t)))
  {
    DeliverAllRefines(db, s);
    DeliverAllRefines(db, t);
    CoherentIsConfluent(ViewOf(db), es);
  }
}
