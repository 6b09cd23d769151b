/**
 Refunds: the request handler, the provider behind it, and the ledger entries
 its events post. The three books are proved to match under any interleaving of
 requests and any crash. RefundBounds says when the bounds on the totals hold.
 */
module Refunds {
  import opened Prelude
  import L = Ledger
  import P = Payments
  import opened Policy

  datatype Payable = Payable(amount: int, currency: string, status: P.PaymentStatus, intent: Option<string>)

  /** A refund as the provider holds it. */
  datatype Issued = Issued(id: string, intent: string, amount: int, currency: string)

  datatype Request = Request(paymentId: string, header: string, body: Option<int>, actor: Actor)

  /** A request that passed every check, before and after the provider call. */
  datatype Call =
    | Ready(paymentId: string, key: string, intent: string, amount: int, currency: string, actor: Actor)
    | Called(paymentId: string, key: string, intent: string, amount: int, refundId: string, actor: Actor)

  /** `issued` is the provider's store, by its idempotency key; `payments` is by payment id. */
  datatype State = State(payments: map<string, Payable>, refunds: seq<P.RefundRow>,
                         issued: map<string, Issued>, book: L.Book, calls: map<nat, Call>)

  datatype Result =
    | BadKey | NoSuchPayment | NotRefundable | Idempotent(amount: int) | OutOfRange
    | Denied(reason: Reason) | ProviderFailed | RecordFailed | Refunded(amount: int) | Crashed

  /** What the world does to one provider call. */
  datatype World = World(freshId: string, refuse: bool, replyLost: bool, crashAfter: bool)

  const UUID_LENGTH := 36

  function ScopedKey(id: string, header: string): string {
    id + ":" + header
  }

  function ProviderKey(key: string): string {
    "refund:" + key
  }

  /** Keys of different payments (or users) never collide: their ids have one length. */
  lemma ScopedKeysDiffer(p: string, h: string, q: string, g: string)
    requires |p| == |q| == UUID_LENGTH && ScopedKey(p, h) == ScopedKey(q, g)
    ensures p == q && h == g
  {
    assert ScopedKey(p, h)[..UUID_LENGTH] == p && ScopedKey(q, g)[..UUID_LENGTH] == q;
    assert ScopedKey(p, h)[UUID_LENGTH + 1..] == h && ScopedKey(q, g)[UUID_LENGTH + 1..] == g;
  }

  lemma ProviderKeysDiffer(a: string, b: string)
    requires ProviderKey(a) == ProviderKey(b)
    ensures a == b
  {
    assert ProviderKey(a)[7..] == a && ProviderKey(b)[7..] == b;
  }

  // ------------------------------------------------------- the handler's parts

  /** Everything the handler decides before it calls the provider. */
  function Check(s: State, q: Request): (Option<Result>, Option<Call>) {
    if PaymentsRefund !in q.actor.capabilities then (Some(Denied(LacksRefund)), None)
    else if |q.header| < 8 || |q.header| > 200 then (Some(BadKey), None)
    else if q.paymentId !in s.payments then (Some(NoSuchPayment), None)
    else
      var p := s.payments[q.paymentId];
      if p.status != P.Succeeded || p.intent.None? || p.intent.value == "" then (Some(NotRefundable), None)
      else
        var key := ScopedKey(q.paymentId, q.header);
        var existing := P.FindRefundByKey(s.refunds, key);
        if existing.Some? then (Some(Idempotent(existing.value)), None)
        else
          var already := P.RefundedTotal(s.refunds, q.paymentId);
          var remaining := p.amount - already;
          var amount := if q.body.Some? then q.body.value else remaining;
          if amount <= 0 || amount > remaining then (Some(OutOfRange), None)
          else
            var decision := CanRefundPayment(q.actor, already + amount);
            if !decision.allowed then (Some(Denied(decision.reason)), None)
            else (None, Some(Ready(q.paymentId, key, p.intent.value, amount, p.currency, q.actor)))
  }

  predicate IdUsed(issued: map<string, Issued>, id: string) {
    exists k :: k in issued && issued[k].id == id
  }

  /** The provider: an identical request replays, a different one under the same key is rejected. */
  function Issue(issued: map<string, Issued>, key: string, c: Call, w: World): (Option<Issued>, map<string, Issued>)
    requires c.Ready?
  {
    if key in issued then
      (if issued[key].intent == c.intent && issued[key].amount == c.amount then Some(issued[key]) else None, issued)
    else if w.refuse || IdUsed(issued, w.freshId) then
      (None, issued)
    else
      var r := Issued(w.freshId, c.intent, c.amount, c.currency);
      (Some(r), issued[key := r])
  }

  function RowOf(c: Call): P.RefundRow
    requires c.Called?
  {
    P.RefundRow(c.paymentId, c.key, c.amount, c.refundId, c.actor.userId)
  }

  /** One whole request with nothing in between. */
  function Handle(s: State, q: Request, w: World): (Result, State) {
    var (early, call) := Check(s, q);
    if call.None? then
      (if early.Some? then early.value else Crashed, s)
    else
      var c := call.value;
      var (reply, issued) := Issue(s.issued, ProviderKey(c.key), c, w);
      var s1 := s.(issued := issued);
      if reply.None? || w.replyLost then (ProviderFailed, s1)
      else if w.crashAfter then (Crashed, s1)
      else
        var row := P.RefundRow(c.paymentId, c.key, c.amount, reply.value.id, c.actor.userId);
        var (ok, refunds) := P.RecordRefund(s.refunds, row);
        (if ok then Refunded(c.amount) else RecordFailed, s1.(refunds := refunds))
  }

  // -------------------------------------------------------- interleaved steps

  datatype Step =
    | Start(call: nat, request: Request)
    | CallProvider(call: nat, world: World)
    | Record(call: nat)
    | Crash(call: nat)
    | DeliverRefundEvent(providerKey: string)
    | ChangeStatus(paymentId: string, status: P.PaymentStatus)

  function RefundEntry(r: Issued): L.Entry {
    L.Entry(r.currency, L.Template(L.Refund, r.amount))
  }

  function Next(s: State, step: Step): State {
    match step
    case Start(n, q) =>
      var (_, call) := Check(s, q);
      if call.None? || n in s.calls then s else s.(calls := s.calls[n := call.value])
    case CallProvider(n, w) =>
      if n !in s.calls || !s.calls[n].Ready? then s
      else
        var c := s.calls[n];
        var (reply, issued) := Issue(s.issued, ProviderKey(c.key), c, w);
        s.(issued := issued,
           calls := if reply.None? || w.replyLost then s.calls - {n}
                    else s.calls[n := Called(c.paymentId, c.key, c.intent, c.amount, reply.value.id, c.actor)])
    case Record(n) =>
      if n !in s.calls || !s.calls[n].Called? then s
      else s.(refunds := P.RecordRefund(s.refunds, RowOf(s.calls[n])).1, calls := s.calls - {n})
    case Crash(n) => s.(calls := s.calls - {n})
    case DeliverRefundEvent(k) =>
      if k !in s.issued then s
      else s.(book := L.PostBook(s.book, L.Key(L.Refund, s.issued[k].id), RefundEntry(s.issued[k])).1)
    case ChangeStatus(id, status) =>
      if id !in s.payments then s else s.(payments := s.payments[id := s.payments[id].(status := status)])
  }

  function After(s: State, steps: seq<Step>): State {
    Fold(Next, s, steps)
  }

  /** The request handler is these steps in a row, with a call number nobody uses. */
  lemma {:induction false} HandleIsSteps(s: State, q: Request, w: World, n: nat)
    requires n !in s.calls
    ensures Handle(s, q, w).1
         == Next(Next(Next(s, Start(n, q)), CallProvider(n, w)), if w.crashAfter then Crash(n) else Record(n))
  {
    var (_, call) := Check(s, q);
    if call.Some? {
      assert s.calls[n := call.value] - {n} == s.calls;
      var (reply, _) := Issue(s.issued, ProviderKey(call.value.key), call.value, w);
      if reply.Some? {
        var c := call.value;
        assert s.calls[n := c][n := Called(c.paymentId, c.key, c.intent, c.amount, reply.value.id, c.actor)] - {n}
            == s.calls;
      }
    } else {
      assert s.calls - {n} == s.calls;
    }
  }

  // ------------------------------------------------------------- three books

  predicate IdsDistinct(issued: map<string, Issued>) {
    forall k, m :: k in issued && m in issued && issued[k].id == issued[m].id ==> k == m
  }

  /** The provider holds this refund under this key, for this payment's intent. */
  predicate Backed(s: State, paymentId: string, key: string, amount: int, refundId: string) {
    && ProviderKey(key) in s.issued && s.issued[ProviderKey(key)].id == refundId
    && s.issued[ProviderKey(key)].amount == amount
    && paymentId in s.payments && s.payments[paymentId].intent == Some(s.issued[ProviderKey(key)].intent)
  }

  predicate RowBacked(s: State, r: P.RefundRow) {
    r.amount > 0 && Scoped(r.key, r.paymentId) && Backed(s, r.paymentId, r.key, r.amount, r.providerRefundId)
  }

  ghost predicate RowsBacked(s: State) {
    && (forall i :: 0 <= i < |s.refunds| ==> RowBacked(s, s.refunds[i]))
    && (forall i, j :: 0 <= i < j < |s.refunds| ==> s.refunds[i].key != s.refunds[j].key)
  }

  /** The idempotency key was scoped to this payment. */
  predicate Scoped(key: string, id: string) {
    |key| > UUID_LENGTH && key[..UUID_LENGTH] == id && key[UUID_LENGTH] == ':'
  }

  lemma ScopedKeyIsScoped(id: string, header: string)
    requires |id| == UUID_LENGTH
    ensures Scoped(ScopedKey(id, header), id)
  {
  }

  predicate Serves(s: State, c: Call) {
    && c.amount > 0 && c.paymentId in s.payments && s.payments[c.paymentId].intent == Some(c.intent)
    && Scoped(c.key, c.paymentId)
    && (c.Ready? ==> c.currency == s.payments[c.paymentId].currency)
    && (c.Called? ==> Backed(s, c.paymentId, c.key, c.amount, c.refundId))
  }

  ghost predicate CallsServe(s: State) {
    forall n :: n in s.calls ==> Serves(s, s.calls[n])
  }

  /** A provider refund under a key scoped to a payment is in that payment's currency. */
  ghost predicate CurrenciesMatch(s: State) {
    forall key, id :: ProviderKey(key) in s.issued && id in s.payments && Scoped(key, id) ==>
      s.issued[ProviderKey(key)].currency == s.payments[id].currency
  }

  ghost predicate EntriesBacked(s: State) {
    forall k :: k in s.book && k.kind == L.Refund ==>
      exists m :: m in s.issued && s.issued[m].id == k.reference && s.book[k] == RefundEntry(s.issued[m])
  }

  ghost predicate Inv(s: State) {
    && (forall id :: id in s.payments ==> |id| == UUID_LENGTH)
    && IdsDistinct(s.issued) && RowsBacked(s) && CallsServe(s) && CurrenciesMatch(s) && EntriesBacked(s)
  }

  lemma {:induction false} StartKeepsInv(s: State, n: nat, q: Request)
    requires Inv(s)
    ensures Inv(Next(s, Start(n, q)))
  {
    hide P.RefundedTotal, P.FindRefundByKey, Backed, RowBacked;
    var (_, call) := Check(s, q);
    if call.Some? && n !in s.calls {
      ScopedKeyIsScoped(q.paymentId, q.header);
      var s' := Next(s, Start(n, q));
      assert Serves(s', call.value);
      SamePayments(s, s');
    }
  }

  /** What refers to the provider and the payments only does not see the rest of the state. */
  lemma SamePayments(s: State, s': State)
    requires s'.payments == s.payments && s'.issued == s.issued
    ensures forall id, key, amount, r :: Backed(s, id, key, amount, r) == Backed(s', id, key, amount, r)
    ensures forall c :: Serves(s, c) == Serves(s', c)
    ensures forall r :: RowBacked(s, r) == RowBacked(s', r)
  {
  }

  lemma IssueKeepsInv(s: State, n: nat, w: World)
    requires Inv(s)
    ensures Inv(Next(s, CallProvider(n, w)))
  {
    if n in s.calls && s.calls[n].Ready? {
      var c := s.calls[n];
      assert Serves(s, c);
      var (reply, issued) := Issue(s.issued, ProviderKey(c.key), c, w);
      var s1 := s.(issued := issued);
      IssueGrows(s, c, w);
      if reply.Some? {
        var c' := Called(c.paymentId, c.key, c.intent, c.amount, reply.value.id, c.actor);
        assert Serves(s1, c');
        CallsStep(s1, n, c');
      }
      CallsStep(s1, n, c);
    }
  }

  lemma {:induction false} CallsStep(s: State, n: nat, c: Call)
    requires Inv(s) && Serves(s, c)
    ensures Inv(s.(calls := s.calls[n := c]))
    ensures Inv(s.(calls := s.calls - {n}))
  {
    hide Backed, RowBacked, Serves;
    SamePayments(s, s.(calls := s.calls[n := c]));
    SamePayments(s, s.(calls := s.calls - {n}));
  }

  lemma IssueGrows(s: State, c: Call, w: World)
    requires Inv(s) && c.Ready? && Serves(s, c)
    ensures var (_, issued) := Issue(s.issued, ProviderKey(c.key), c, w);
            Inv(s.(issued := issued))
  {
    var (_, issued) := Issue(s.issued, ProviderKey(c.key), c, w);
    var s1 := s.(issued := issued);
    forall k | k in s.issued ensures k in issued && issued[k] == s.issued[k] {
    }
    forall key, id | ProviderKey(key) in issued && id in s.payments && Scoped(key, id)
      ensures issued[ProviderKey(key)].currency == s.payments[id].currency
    {
      if ProviderKey(key) !in s.issued {
        ProviderKeysDiffer(key, c.key);
        assert id == c.key[..UUID_LENGTH] == c.paymentId;
      }
    }
    forall i | 0 <= i < |s.refunds| ensures RowBacked(s1, s1.refunds[i]) {
      assert RowBacked(s, s.refunds[i]);
    }
    forall n | n in s1.calls ensures Serves(s1, s1.calls[n]) {
      assert Serves(s, s.calls[n]);
    }
    forall k | k in s1.book && k.kind == L.Refund
      ensures exists m :: m in issued && issued[m].id == k.reference && s1.book[k] == RefundEntry(issued[m])
    {
      var m :| m in s.issued && s.issued[m].id == k.reference && s.book[k] == RefundEntry(s.issued[m]);
      assert m in issued && issued[m] == s.issued[m];
    }
  }

  lemma RecordKeepsInv(s: State, n: nat)
    requires Inv(s)
    ensures Inv(Next(s, Record(n)))
  {
    hide Backed;
    if n in s.calls && s.calls[n].Called? {
      var c := s.calls[n];
      assert Serves(s, c);
      var s1 := s.(refunds := P.RecordRefund(s.refunds, RowOf(c)).1);
      P.FindRefund(s.refunds, c.key);
      SamePayments(s, s1);
      forall i | 0 <= i < |s1.refunds| ensures RowBacked(s1, s1.refunds[i]) {
        if i < |s.refunds| {
          assert RowBacked(s, s.refunds[i]);
        }
      }
      CallsStep(s1, n, c);
    }
  }

  lemma EventKeepsInv(s: State, k: string)
    requires Inv(s)
    ensures Inv(Next(s, DeliverRefundEvent(k)))
  {
  }

  lemma StatusKeepsInv(s: State, id: string, status: P.PaymentStatus)
    requires Inv(s)
    ensures Inv(Next(s, ChangeStatus(id, status)))
  {
  }

  lemma {:induction false} NextKeepsInv(s: State, step: Step)
    requires Inv(s)
    ensures Inv(Next(s, step))
  {
    hide Inv, Next;
    match step {
      case Start(n, q) => StartKeepsInv(s, n, q);
      case CallProvider(n, w) => IssueKeepsInv(s, n, w);
      case Record(n) => RecordKeepsInv(s, n);
      case Crash(n) => CrashKeepsInv(s, n);
      case DeliverRefundEvent(k) => EventKeepsInv(s, k);
      case ChangeStatus(id, status) => StatusKeepsInv(s, id, status);
    }
  }

  lemma CrashKeepsInv(s: State, n: nat)
    requires Inv(s)
    ensures Inv(Next(s, Crash(n)))
  {
  }

  lemma {:induction false} AfterInv(s: State, steps: seq<Step>)
    requires Inv(s)
    ensures Inv(After(s, steps))
    decreases |steps|
  {
    hide Inv, Next;
    if steps != [] {
      AfterInv(s, steps[..|steps| - 1]);
      NextKeepsInv(After(s, steps[..|steps| - 1]), steps[|steps| - 1]);
    }
  }

  /**
   However requests interleave and crash: every refund row is one provider
   refund of the same amount, no provider refund has two rows, and every refund
   entry in the ledger is of one provider refund. Once each provider refund has
   its entry, so does each row, with its amount.
   */
  lemma ThreeBooksMatch(s: State, steps: seq<Step>)
    requires Inv(s)
    ensures var t := After(s, steps);
            && (forall i :: 0 <= i < |t.refunds| ==>
                  Backed(t, t.refunds[i].paymentId, t.refunds[i].key, t.refunds[i].amount,
                         t.refunds[i].providerRefundId))
            && (forall i, j :: 0 <= i < j < |t.refunds| ==>
                  t.refunds[i].providerRefundId != t.refunds[j].providerRefundId)
            && EntriesBacked(t)
            && ((forall k :: k in t.issued ==> L.Key(L.Refund, t.issued[k].id) in t.book) ==>
                  forall i :: 0 <= i < |t.refunds| ==> Posted(t, t.refunds[i]))
  {
    AfterInv(s, steps);
    var t := After(s, steps);
    hide After, Backed;
    forall i | 0 <= i < |t.refunds|
      ensures Backed(t, t.refunds[i].paymentId, t.refunds[i].key, t.refunds[i].amount, t.refunds[i].providerRefundId)
    {
      assert RowBacked(t, t.refunds[i]);
    }
    forall i, j | 0 <= i < j < |t.refunds| ensures t.refunds[i].providerRefundId != t.refunds[j].providerRefundId {
      TwoRowsTwoRefunds(t, i, j);
    }
    if forall k :: k in t.issued ==> L.Key(L.Refund, t.issued[k].id) in t.book {
      forall i | 0 <= i < |t.refunds| ensures Posted(t, t.refunds[i]) {
        RowPosted(t, i);
      }
    }
  }

  /** The ledger holds the row's refund, in the payment's currency and for the row's amount. */
  predicate Posted(s: State, r: P.RefundRow) {
    var k := L.Key(L.Refund, r.providerRefundId);
    r.paymentId in s.payments && k in s.book
    && s.book[k] == L.Entry(s.payments[r.paymentId].currency, L.Template(L.Refund, r.amount))
  }

  lemma TwoRowsTwoRefunds(s: State, i: nat, j: nat)
    requires Inv(s) && i < j < |s.refunds|
    ensures s.refunds[i].providerRefundId != s.refunds[j].providerRefundId
  {
    assert RowBacked(s, s.refunds[i]) && RowBacked(s, s.refunds[j]);
    if ProviderKey(s.refunds[i].key) == ProviderKey(s.refunds[j].key) {
      ProviderKeysDiffer(s.refunds[i].key, s.refunds[j].key);
    }
  }

  lemma RowPosted(s: State, i: nat)
    requires Inv(s) && i < |s.refunds|
    requires forall k :: k in s.issued ==> L.Key(L.Refund, s.issued[k].id) in s.book
    ensures Posted(s, s.refunds[i])
  {
  }

  // --------------------------------------------------- bounds, one at a time

  datatype SerialStep =
    | Requesting(request: Request, world: World)
    | Delivering(providerKey: string)
    | Changing(paymentId: string, status: P.PaymentStatus)

  function SerialNext(s: State, step: SerialStep): State {
    match step
    case Requesting(q, w) => Handle(s, q, w).1
    case Delivering(k) => Next(s, DeliverRefundEvent(k))
    case Changing(id, status) => Next(s, ChangeStatus(id, status))
  }

  function SerialAfter(s: State, steps: seq<SerialStep>): State {
    Fold(SerialNext, s, steps)
  }

  /** The refund rows of each payment add up to no more than it. */
  predicate WithinAmount(s: State) {
    forall id :: id in s.payments ==> P.RefundedTotal(s.refunds, id) <= s.payments[id].amount
  }

  lemma TotalGrows(refunds: seq<P.RefundRow>, row: P.RefundRow, id: string)
    ensures P.RefundedTotal(refunds + [row], id)
         == P.RefundedTotal(refunds, id) + if row.paymentId == id then row.amount else 0
  {
  }

  /**
   What one request can do to the rows: nothing, or one row within the amount
   still refundable; and without the over-ceiling capability only up to the ceiling.
   */
  lemma RequestBounds(s: State, q: Request, w: World)
    requires WithinAmount(s)
    ensures var (result, s') := Handle(s, q, w);
            && WithinAmount(s')
            && (result.Refunded? <==> s'.refunds != s.refunds)
            && (result.Refunded? ==>
                  && |s'.refunds| == |s.refunds| + 1 && s'.refunds[..|s.refunds|] == s.refunds
                  && s'.refunds[|s.refunds|].paymentId == q.paymentId
                  && s'.refunds[|s.refunds|].createdBy == q.actor.userId
                  && s'.refunds[|s.refunds|].amount == result.amount > 0
                  && PaymentsRefund in q.actor.capabilities
                  && (PaymentsRefundOverCeiling !in q.actor.capabilities ==>
                        P.RefundedTotal(s'.refunds, q.paymentId) <= REFUND_CEILING_MINOR))
  {
  }

  /** The request asks for something this payment and this actor allow. */
  predicate Allowed(s: State, q: Request, amount: int) {
    && q.paymentId in s.payments
    && s.payments[q.paymentId].status == P.Succeeded
    && s.payments[q.paymentId].intent.Some? && s.payments[q.paymentId].intent.value != ""
    && 8 <= |q.header| <= 200
    && (forall i :: 0 <= i < |s.refunds| ==> s.refunds[i].key != ScopedKey(q.paymentId, q.header))
    && 0 < amount <= s.payments[q.paymentId].amount - P.RefundedTotal(s.refunds, q.paymentId)
    && PaymentsRefund in q.actor.capabilities
    && (P.RefundedTotal(s.refunds, q.paymentId) + amount <= REFUND_CEILING_MINOR
        || PaymentsRefundOverCeiling in q.actor.capabilities)
  }

  /**
   With a provider that answers, a request is refunded exactly when it is allowed, and
   by what it asked, or all that is left.
   */
  lemma RefundedIffAllowed(s: State, q: Request, w: World)
    requires !w.refuse && !w.replyLost && !w.crashAfter && !IdUsed(s.issued, w.freshId)
    requires ProviderKey(ScopedKey(q.paymentId, q.header)) !in s.issued
    ensures Handle(s, q, w).0.Refunded? <==> exists amount :: Asked(s, q, amount) && Allowed(s, q, amount)
    ensures forall amount :: Asked(s, q, amount) && Allowed(s, q, amount) ==> Handle(s, q, w).0 == Refunded(amount)
  {
    hide P.RefundedTotal, P.FindRefundByKey, ScopedKey, ProviderKey, IdUsed;
    P.FindRefund(s.refunds, ScopedKey(q.paymentId, q.header));
    if q.paymentId in s.payments {
      var left := s.payments[q.paymentId].amount - P.RefundedTotal(s.refunds, q.paymentId);
      assert Asked(s, q, if q.body.Some? then q.body.value else left);
    }
  }

  predicate Asked(s: State, q: Request, amount: int) {
    && q.paymentId in s.payments
    && (q.body.Some? ==> amount == q.body.value)
    && (q.body.None? ==> amount == s.payments[q.paymentId].amount - P.RefundedTotal(s.refunds, q.paymentId))
  }

  /** The payment can be refunded at all: it settled, and has an intent at the provider. */
  predicate Refundable(s: State, id: string) {
    && id in s.payments && s.payments[id].status == P.Succeeded
    && s.payments[id].intent.Some? && s.payments[id].intent.value != ""
  }

  /** The amount the request comes to: what it asks, or all that is left. */
  function Amount(s: State, q: Request): int
    requires q.paymentId in s.payments
  {
    if q.body.Some? then q.body.value else s.payments[q.paymentId].amount - P.RefundedTotal(s.refunds, q.paymentId)
  }

  predicate HasRefundRow(s: State, q: Request) {
    exists i :: 0 <= i < |s.refunds| && s.refunds[i].key == ScopedKey(q.paymentId, q.header)
  }

  /** Asked for a refundable payment, under a usable key, by somebody who may refund, and not answered before. */
  predicate Considered(s: State, q: Request) {
    PaymentsRefund in q.actor.capabilities && 8 <= |q.header| <= 200 && Refundable(s, q.paymentId) && !HasRefundRow(s, q)
  }

  predicate InRange(s: State, q: Request)
    requires q.paymentId in s.payments
  {
    0 < Amount(s, q) <= s.payments[q.paymentId].amount - P.RefundedTotal(s.refunds, q.paymentId)
  }

  /** The running total the request would come to passes fifty thousand, and its actor may not. */
  predicate OverCeiling(s: State, q: Request)
    requires q.paymentId in s.payments
  {
    P.RefundedTotal(s.refunds, q.paymentId) + Amount(s, q) > 50_000
    && PaymentsRefundOverCeiling !in q.actor.capabilities
  }

  /** Every refusal before the provider is called, each exactly when it applies; refusing changes nothing. */
  lemma RefusedIff(s: State, q: Request, w: World)
    ensures var (r, s') := Handle(s, q, w);
            && (r == Denied(LacksRefund) <==> PaymentsRefund !in q.actor.capabilities)
            && (r == BadKey <==> PaymentsRefund in q.actor.capabilities && !(8 <= |q.header| <= 200))
            && (r == NoSuchPayment <==>
                  PaymentsRefund in q.actor.capabilities && 8 <= |q.header| <= 200 && q.paymentId !in s.payments)
            && (r == NotRefundable <==>
                  PaymentsRefund in q.actor.capabilities && 8 <= |q.header| <= 200
                  && q.paymentId in s.payments && !Refundable(s, q.paymentId))
            && (r.Idempotent? <==>
                  PaymentsRefund in q.actor.capabilities && 8 <= |q.header| <= 200
                  && Refundable(s, q.paymentId) && HasRefundRow(s, q))
            && (r == OutOfRange <==> Considered(s, q) && !InRange(s, q))
            && (r.Denied? && r != Denied(LacksRefund) <==> Considered(s, q) && InRange(s, q) && OverCeiling(s, q))
            && (r.Denied? && r != Denied(LacksRefund) ==>
                  r == Denied(ExceedsCeiling(P.RefundedTotal(s.refunds, q.paymentId) + Amount(s, q))))
            && (r.ProviderFailed? || r.Crashed? || r.Refunded? || r.RecordFailed? <==>
                  Considered(s, q) && InRange(s, q) && !OverCeiling(s, q))
            && (!(r.ProviderFailed? || r.Crashed? || r.Refunded? || r.RecordFailed?) ==> s' == s)
  {
    hide P.RefundedTotal, P.FindRefundByKey, ScopedKey, Issue;
    P.FindRefund(s.refunds, ScopedKey(q.paymentId, q.header));
  }

  /** A request that reaches the provider: failed exactly on a refusal or a lost reply, then dead or recorded. */
  lemma ReachedIff(s: State, q: Request, w: World)
    requires Considered(s, q) && InRange(s, q) && !OverCeiling(s, q)
    ensures var (r, s') := Handle(s, q, w);
            var k := ProviderKey(ScopedKey(q.paymentId, q.header));
            var p := s.payments[q.paymentId];
            var issues := if k in s.issued then s.issued[k].intent == p.intent.value && s.issued[k].amount == Amount(s, q)
                          else !w.refuse && !IdUsed(s.issued, w.freshId);
            && (r == ProviderFailed <==> !issues || w.replyLost)
            && (r == Crashed <==> issues && !w.replyLost && w.crashAfter)
            && (r == Refunded(Amount(s, q)) <==> issues && !w.replyLost && !w.crashAfter)
            && s'.issued == (if !issues || k in s.issued then s.issued
                             else s.issued[k := Issued(w.freshId, p.intent.value, Amount(s, q), p.currency)])
            && s'.refunds == (if issues && !w.replyLost && !w.crashAfter
                              then s.refunds + [P.RefundRow(q.paymentId, ScopedKey(q.paymentId, q.header), Amount(s, q),
                                                            s'.issued[k].id, q.actor.userId)]
                              else s.refunds)
            && s'.payments == s.payments && s'.book == s.book && s'.calls == s.calls
  {
    hide P.RefundedTotal, P.FindRefundByKey, ScopedKey, ProviderKey, IdUsed;
    P.FindRefund(s.refunds, ScopedKey(q.paymentId, q.header));
  }

  /** Over any serial run the rows of a payment sum to at most its amount. */
  lemma {:induction false} RefundsWithinAmount(s: State, steps: seq<SerialStep>)
    requires WithinAmount(s)
    ensures WithinAmount(SerialAfter(s, steps))
    decreases |steps|
  {
    hide P.RefundedTotal, Handle;
    if steps != [] {
      RefundsWithinAmount(s, steps[..|steps| - 1]);
      var t := SerialAfter(s, steps[..|steps| - 1]);
      match steps[|steps| - 1] {
        case Requesting(q, w) => RequestBounds(t, q, w);
        case Delivering(k) =>
        case Changing(id, status) =>
      }
    }
  }

  /** A key that already has a row changes nothing, whatever else the request says. */
  lemma RepeatChangesNothing(s: State, q: Request, w: World, i: nat)
    requires i < |s.refunds| && s.refunds[i].key == ScopedKey(q.paymentId, q.header)
    ensures Handle(s, q, w).1 == s && Handle(s, q, w).0 in
              {Denied(LacksRefund), BadKey, NoSuchPayment, NotRefundable, Idempotent(IdempotentAmount(s, q))}
  {
    hide P.RefundedTotal;
    P.FindRefund(s.refunds, ScopedKey(q.paymentId, q.header));
  }

  /** The amount of the row a repeated key answers with. */
  function IdempotentAmount(s: State, q: Request): int {
    var found := P.FindRefundByKey(s.refunds, ScopedKey(q.paymentId, q.header));
    if found.Some? then found.value else 0
  }

  lemma {:induction false} FindAppended(refunds: seq<P.RefundRow>, row: P.RefundRow)
    requires P.FindRefundByKey(refunds, row.key).None?
    ensures P.FindRefundByKey(refunds + [row], row.key) == Some(row.amount)
    decreases |refunds|
  {
    if refunds != [] {
      assert (refunds + [row])[1..] == refunds[1..] + [row];
      FindAppended(refunds[1..], row);
    }
  }

  /** A refund that went through answers every retry with its own amount, and moves nothing again. */
  lemma {:induction false} RefundedOnce(s: State, q: Request, w: World, body: Option<int>, actor: Actor, w': World)
    requires Handle(s, q, w).0.Refunded? && PaymentsRefund in actor.capabilities
    ensures var (result, s') := Handle(s, q, w);
            Handle(s', q.(body := body, actor := actor), w') == (Idempotent(result.amount), s')
  {
    hide P.RefundedTotal, P.FindRefundByKey, Issue;
    var s' := Handle(s, q, w).1;
    var row := s'.refunds[|s.refunds|];
    assert s'.refunds == s.refunds + [row];
    FindAppended(s.refunds, row);
  }

  /**
   A crash, or a lost reply, after the provider issued the refund: retrying the
   same request records that refund and issues no second one.
   */
  lemma {:induction false} CrashThenRetry(s: State, q: Request, w: World, w': World)
    requires Check(s, q).1.Some? && Issue(s.issued, ProviderKey(Check(s, q).1.value.key), Check(s, q).1.value, w).0.Some?
    requires w.replyLost || w.crashAfter
    requires !w'.replyLost && !w'.crashAfter
    ensures var s1 := Handle(s, q, w).1;
            var (result, s2) := Handle(s1, q, w');
            var c := Check(s, q).1.value;
            && s1.refunds == s.refunds && result == Refunded(c.amount) && s2.issued == s1.issued
            && s2.refunds == s.refunds + [P.RefundRow(c.paymentId, c.key, c.amount,
                                                      s1.issued[ProviderKey(c.key)].id, c.actor.userId)]
  {
    hide P.RefundedTotal, P.FindRefundByKey;
    var s1 := Handle(s, q, w).1;
    assert Check(s1, q) == Check(s, q);
  }

  // -------------------------------------------------------------- the handler

  class Desk {
    var payments: map<string, Payable>
    var issued: map<string, Issued>
    var book: L.Book
    const store: P.Store

    function Books(): State
      reads this, store
    {
      State(payments, store.refunds, issued, book, map[])
    }

    constructor (store: P.Store, payments: map<string, Payable>)
      ensures this.store == store && this.payments == payments && issued == map[] && book == map[]
    {
      this.store, this.payments, issued, book := store, payments, map[], map[];
    }

    /** The provider call: creates the refund or replays the one under the key. */
    method CreateRefund(key: string, c: Call, w: World) returns (reply: Option<Issued>)
      requires c.Ready?
      modifies `issued
      ensures (reply, issued) == Issue(old(issued), key, c, w)
    {
      if key in issued {
        if issued[key].intent == c.intent && issued[key].amount == c.amount {
          return Some(issued[key]);
        }
        return None;
      }
      if w.refuse || IdUsed(issued, w.freshId) {
        return None;
      }
      var r := Issued(w.freshId, c.intent, c.amount, c.currency);
      issued := issued[key := r];
      reply := Some(r);
    }

    method Refund(q: Request, w: World) returns (result: Result)
      modifies `issued, store`refunds
      ensures (result, Books()) == Handle(old(Books()), q, w)
    {
      if PaymentsRefund !in q.actor.capabilities {
        return Denied(LacksRefund);
      }
      if |q.header| < 8 || |q.header| > 200 {
        return BadKey;
      }
      if q.paymentId !in payments {
        return NoSuchPayment;
      }
      var payment := payments[q.paymentId];
      if payment.status != P.Succeeded || payment.intent.None? || payment.intent.value == "" {
        return NotRefundable;
      }
      var key := ScopedKey(q.paymentId, q.header);
      var existing := P.FindRefundByKey(store.refunds, key);
      if existing.Some? {
        return Idempotent(existing.value);
      }
      var already := P.RefundedTotal(store.refunds, q.paymentId);
      var remaining := payment.amount - already;
      var amount := if q.body.Some? then q.body.value else remaining;
      if amount <= 0 || amount > remaining {
        return OutOfRange;
      }
      var decision := CanRefundPayment(q.actor, already + amount);
      if !decision.allowed {
        return Denied(decision.reason);
      }
      var call := Ready(q.paymentId, key, payment.intent.value, amount, payment.currency, q.actor);
      var refund := CreateRefund(ProviderKey(key), call, w);
      if refund.None? || w.replyLost {
        return ProviderFailed;
      }
      if w.crashAfter {
        return Crashed;
      }
      var ok := store.RecordRefundRow(P.RefundRow(q.paymentId, key, amount, refund.value.id, q.actor.userId));
      result := if ok then Refunded(amount) else RecordFailed;
    }
  }
}
