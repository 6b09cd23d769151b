/**
 How much can be refunded: the totals of the refund rows and of the money the
 provider has sent, under any interleaving of requests. Both stay within the
 payment and the ceiling as long as requests on one payment do not overlap, the
 money only if no refund is lost between the provider and its row.
 */
module RefundBounds {
  import opened Prelude
  import L = Ledger
  import M = StripeMapping
  import P = Payments
  import W = Webhook
  import opened Policy
  import opened Refunds

  predicate OpenOn(s: State, id: string) {
    exists n :: n in s.calls && s.calls[n].paymentId == id
  }

  /** No request on the payment starts while another one on it is open; other payments mix freely. */
  predicate Unmixed(s: State, steps: seq<Step>, id: string) {
    forall k :: 0 <= k < |steps| && steps[k].Start? && steps[k].request.paymentId == id ==>
      !OpenOn(After(s, steps[..k]), id)
  }

  // --------------------------------------------------------- the refund rows

  function Total(s: State, id: string): int {
    P.RefundedTotal(s.refunds, id)
  }

  predicate Unlimited(actor: Actor) {
    PaymentsRefundOverCeiling in actor.capabilities
  }

  /** The open call still fits: within the payment, and within the ceiling unless its actor may pass it. */
  predicate Fits(s: State, c: Call) {
    && c.paymentId in s.payments && c.amount > 0
    && Total(s, c.paymentId) + c.amount <= s.payments[c.paymentId].amount
    && (Unlimited(c.actor) || Total(s, c.paymentId) + c.amount <= REFUND_CEILING_MINOR)
  }

  /** At most one call on the payment is open, and it fits. */
  predicate InBounds(s: State, id: string) {
    && id in s.payments && Total(s, id) <= s.payments[id].amount
    && (forall n :: n in s.calls && s.calls[n].paymentId == id ==> Fits(s, s.calls[n]))
    && (forall n, m :: n in s.calls && m in s.calls && s.calls[n].paymentId == id == s.calls[m].paymentId ==> n == m)
  }

  lemma StartInBounds(s: State, n: nat, q: Request, id: string)
    requires InBounds(s, id) && (q.paymentId == id ==> !OpenOn(s, id))
    ensures InBounds(Next(s, Start(n, q)), id)
  {
    hide P.RefundedTotal, P.FindRefundByKey;
  }

  lemma CallInBounds(s: State, n: nat, w: World, id: string)
    requires InBounds(s, id)
    ensures InBounds(Next(s, CallProvider(n, w)), id)
  {
    hide P.RefundedTotal, Issue, Fits;
    var s' := Next(s, CallProvider(n, w));
    forall m | m in s'.calls && s'.calls[m].paymentId == id ensures Fits(s', s'.calls[m]) {
      SameFit(s, s.calls[m], s', s'.calls[m]);
    }
  }

  lemma SameFit(s: State, c: Call, s': State, c': Call)
    requires Fits(s, c) && s'.refunds == s.refunds && s'.payments == s.payments
    requires c'.paymentId == c.paymentId && c'.amount == c.amount && c'.actor == c.actor
    ensures Fits(s', c')
  {
    hide P.RefundedTotal;
  }

  /** Recording a call adds its amount to its own payment, once, and nothing to any other. */
  lemma RecordAdds(s: State, n: nat, id: string)
    ensures var s' := Next(s, Record(n));
            Total(s', id) == Total(s, id) + if s'.refunds != s.refunds && s.calls[n].paymentId == id
                                            then s.calls[n].amount else 0
    ensures Next(s, Record(n)).refunds != s.refunds ==> n in s.calls && s.calls[n].Called? && s.calls[n].amount > 0
  {
    hide P.RefundedTotal, P.FindRefundByKey;
    if n in s.calls && s.calls[n].Called? {
      TotalGrows(s.refunds, RowOf(s.calls[n]), id);
    }
  }

  lemma RecordInBounds(s: State, n: nat, id: string)
    requires InBounds(s, id)
    ensures InBounds(Next(s, Record(n)), id)
  {
    hide P.RefundedTotal, P.FindRefundByKey;
    RecordAdds(s, n, id);
  }

  lemma NextInBounds(s: State, step: Step, id: string)
    requires InBounds(s, id) && (step.Start? && step.request.paymentId == id ==> !OpenOn(s, id))
    ensures InBounds(Next(s, step), id) && Next(s, step).payments[id].amount == s.payments[id].amount
  {
    hide P.RefundedTotal, Check, Issue, P.RecordRefund;
    match step {
      case Start(n, q) => StartInBounds(s, n, q, id);
      case CallProvider(n, w) => CallInBounds(s, n, w, id);
      case Record(n) => RecordInBounds(s, n, id);
      case Crash(n) =>
      case DeliverRefundEvent(k) =>
      case ChangeStatus(i, status) =>
    }
  }

  lemma UnmixedPrefix(s: State, steps: seq<Step>, id: string, n: nat)
    requires Unmixed(s, steps, id) && n <= |steps|
    ensures Unmixed(s, steps[..n], id)
  {
    hide OpenOn, Next;
    assert forall k :: 0 <= k < n ==> steps[..n][..k] == steps[..k] && steps[..n][k] == steps[k];
  }

  lemma {:induction false} AfterInBounds(s: State, steps: seq<Step>, id: string)
    requires InBounds(s, id) && Unmixed(s, steps, id)
    ensures InBounds(After(s, steps), id) && After(s, steps).payments[id].amount == s.payments[id].amount
    decreases |steps|
  {
    hide InBounds, OpenOn, Next;
    if steps != [] {
      var n := |steps| - 1;
      UnmixedPrefix(s, steps, id, n);
      AfterInBounds(s, steps[..n], id);
      NextInBounds(After(s, steps[..n]), steps[n], id);
      InBoundsKnows(After(s, steps), id);
      InBoundsKnows(s, id);
    } else {
      InBoundsKnows(s, id);
    }
  }

  lemma InBoundsKnows(s: State, id: string)
    requires InBounds(s, id)
    ensures id in s.payments && Total(s, id) <= s.payments[id].amount
  {
  }

  /** A row written by an actor without the over-ceiling capability leaves the payment's rows within the ceiling. */
  predicate CeilingKept(s: State, step: Step, id: string) {
    step.Record? && step.call in s.calls && s.calls[step.call].Called? && s.calls[step.call].paymentId == id
    && !Unlimited(s.calls[step.call].actor) ==>
      Total(Next(s, step), id) <= REFUND_CEILING_MINOR
  }

  /**
   Whatever other payments' requests, crashes, lost replies, events and status
   changes come in between: if requests on one payment do not overlap, its rows
   stay within its amount, and the ceiling binds every actor it is meant for.
   */
  lemma RowsWithinBounds(s: State, steps: seq<Step>, id: string)
    requires id in s.payments && Total(s, id) <= s.payments[id].amount && !OpenOn(s, id)
    requires Unmixed(s, steps, id)
    ensures id in After(s, steps).payments && Total(After(s, steps), id) <= s.payments[id].amount
    ensures forall k :: 0 <= k < |steps| ==> CeilingKept(After(s, steps[..k]), steps[k], id)
  {
    hide P.RefundedTotal, Next, OpenOn, Fits;
    NoneOpen(s, id);
    AfterInBounds(s, steps, id);
    forall k | 0 <= k < |steps| ensures CeilingKept(After(s, steps[..k]), steps[k], id) {
      UnmixedPrefix(s, steps, id, k);
      AfterInBounds(s, steps[..k], id);
      RecordKeepsCeiling(After(s, steps[..k]), steps[k], id);
    }
  }

  lemma NoneOpen(s: State, id: string)
    requires id in s.payments && Total(s, id) <= s.payments[id].amount && !OpenOn(s, id)
    ensures InBounds(s, id)
  {
  }

  lemma RecordKeepsCeiling(s: State, step: Step, id: string)
    requires InBounds(s, id)
    ensures CeilingKept(s, step, id)
  {
    hide P.RefundedTotal, P.FindRefundByKey;
    if step.Record? {
      RecordAdds(s, step.call, id);
    }
  }

  // ------------------------------------------------------- when they overlap

  /** Two requests, both checked before either is recorded. */
  function Overlap(n: nat, m: nat, p: Request, q: Request, v: World, w: World): seq<Step> {
    [Start(n, p), Start(m, q), CallProvider(n, v), CallProvider(m, w), Record(n), Record(m)]
  }

  /** The provider answers the request with a new refund. */
  predicate Answers(s: State, q: Request, w: World) {
    && !w.refuse && !w.replyLost && !IdUsed(s.issued, w.freshId)
    && ProviderKey(ScopedKey(q.paymentId, q.header)) !in s.issued
  }

  /** What an allowed request becomes, before and after the provider call. */
  function ReadyFor(s: State, q: Request, x: int): Call
    requires q.paymentId in s.payments && s.payments[q.paymentId].intent.Some?
  {
    var p := s.payments[q.paymentId];
    Ready(q.paymentId, ScopedKey(q.paymentId, q.header), p.intent.value, x, p.currency, q.actor)
  }

  function CalledFor(s: State, q: Request, x: int, refundId: string): Call
    requires q.paymentId in s.payments && s.payments[q.paymentId].intent.Some?
  {
    Called(q.paymentId, ScopedKey(q.paymentId, q.header), s.payments[q.paymentId].intent.value, x, refundId, q.actor)
  }

  lemma AllowedStarts(s: State, q: Request, x: int, n: nat)
    requires Asked(s, q, x) && Allowed(s, q, x) && n !in s.calls
    ensures Next(s, Start(n, q)) == s.(calls := s.calls[n := ReadyFor(s, q, x)])
  {
    hide P.RefundedTotal, P.FindRefundByKey, ScopedKey;
    P.FindRefund(s.refunds, ScopedKey(q.paymentId, q.header));
  }

  lemma ReadyIsIssued(s: State, q: Request, x: int, n: nat, w: World)
    requires q.paymentId in s.payments && s.payments[q.paymentId].intent.Some? && Answers(s, q, w)
    requires n in s.calls && s.calls[n] == ReadyFor(s, q, x)
    ensures var p, k := s.payments[q.paymentId], ProviderKey(ScopedKey(q.paymentId, q.header));
            Next(s, CallProvider(n, w))
            == s.(issued := s.issued[k := Issued(w.freshId, p.intent.value, x, p.currency)],
                  calls := s.calls[n := CalledFor(s, q, x, w.freshId)])
  {
    hide ScopedKey, ProviderKey, IdUsed;
  }

  lemma CalledIsRecorded(s: State, q: Request, x: int, n: nat, refundId: string)
    requires q.paymentId in s.payments && s.payments[q.paymentId].intent.Some? && x > 0
    requires n in s.calls && s.calls[n] == CalledFor(s, q, x, refundId)
    requires P.FindRefundByKey(s.refunds, ScopedKey(q.paymentId, q.header)).None?
    ensures Next(s, Record(n))
         == s.(refunds := s.refunds + [RowOf(CalledFor(s, q, x, refundId))], calls := s.calls - {n})
  {
    hide ScopedKey, P.FindRefundByKey;
  }

  /**
   Any two requests that are each allowed, overlapping, are both refunded: the rows
   grow by the sum. So the payment's amount, or the ceiling, is passed exactly when
   that sum passes it; and each of the two actors may lack the over-ceiling capability.
   */
  lemma OverlapAddsUp(s: State, p: Request, q: Request, x: int, y: int, v: World, w: World, n: nat, m: nat)
    requires n !in s.calls && m !in s.calls && n != m && v.freshId != w.freshId
    requires p.paymentId == q.paymentId && p.header != q.header
    requires Asked(s, p, x) && Allowed(s, p, x) && Answers(s, p, v)
    requires Asked(s, q, y) && Allowed(s, q, y) && Answers(s, q, w)
    ensures Total(After(s, Overlap(n, m, p, q, v, w)), p.paymentId) == Total(s, p.paymentId) + x + y
  {
    hide Next, ScopedKey, ProviderKey, P.RefundedTotal, P.FindRefundByKey, IdUsed;
    var id := p.paymentId;
    var pay, k, l := s.payments[id], ScopedKey(id, p.header), ScopedKey(id, q.header);
    KeysApart(id, p.header, q.header);
    P.FindRefund(s.refunds, k);
    P.FindRefund(s.refunds, l);
    FoldSix(Next, s, Start(n, p), Start(m, q), CallProvider(n, v), CallProvider(m, w), Record(n), Record(m));
    AllowedStarts(s, p, x, n);
    var s1 := s.(calls := s.calls[n := ReadyFor(s, p, x)]);
    AllowedStarts(s1, q, y, m);
    var s2 := s.(calls := s.calls[n := ReadyFor(s, p, x)][m := ReadyFor(s, q, y)]);
    assert ReadyFor(s1, q, y) == ReadyFor(s, q, y);
    ReadyIsIssued(s2, p, x, n, v);
    var r := Issued(v.freshId, pay.intent.value, x, pay.currency);
    var s3 := s2.(issued := s.issued[ProviderKey(k) := r], calls := s2.calls[n := CalledFor(s, p, x, v.freshId)]);
    StillUnused(s.issued, ProviderKey(k), r, w.freshId);
    ReadyIsIssued(s3, q, y, m, w);
    var s4 := Next(s3, CallProvider(m, w));
    CalledIsRecorded(s4, p, x, n, v.freshId);
    var row := RowOf(CalledFor(s, p, x, v.freshId));
    var s5 := Next(s4, Record(n));
    AppendedKey(s.refunds, row, l);
    CalledIsRecorded(s5, q, y, m, w.freshId);
    TotalGrows(s.refunds, row, id);
    TotalGrows(s.refunds + [row], RowOf(CalledFor(s, q, y, w.freshId)), id);
  }

  lemma StillUnused(issued: map<string, Issued>, k: string, r: Issued, id: string)
    requires !IdUsed(issued, id) && r.id != id
    ensures !IdUsed(issued[k := r], id)
  {
  }

  lemma AppendedKey(refunds: seq<P.RefundRow>, row: P.RefundRow, key: string)
    requires P.FindRefundByKey(refunds, key).None? && row.key != key
    ensures P.FindRefundByKey(refunds + [row], key).None?
  {
    P.FindRefund(refunds, key);
    P.FindRefund(refunds + [row], key);
  }

  lemma KeysApart(id: string, h: string, g: string)
    requires h != g
    ensures ScopedKey(id, h) != ScopedKey(id, g)
    ensures ProviderKey(ScopedKey(id, h)) != ProviderKey(ScopedKey(id, g))
  {
    assert ScopedKey(id, h)[|id| + 1..] == h && ScopedKey(id, g)[|id| + 1..] == g;
    if ProviderKey(ScopedKey(id, h)) == ProviderKey(ScopedKey(id, g)) {
      ProviderKeysDiffer(ScopedKey(id, h), ScopedKey(id, g));
    }
  }

  // ------------------------------------------- the money the provider has sent

  /** The provider refund under this key was made for a request on the payment. */
  predicate KeyOf(k: string, id: string) {
    |k| > 7 && k[..7] == "refund:" && Scoped(k[7..], id)
  }

  predicate HasRow(refunds: seq<P.RefundRow>, k: string) {
    exists i :: 0 <= i < |refunds| && ProviderKey(refunds[i].key) == k
  }

  /** The provider's refunds of the payment that have no row among the given ones, by key. */
  function Unrecorded(s: State, refunds: seq<P.RefundRow>, id: string): map<string, int> {
    map k | k in s.issued && KeyOf(k, id) && !HasRow(refunds, k) :: s.issued[k].amount
  }

  /** All the money sent back for the payment. */
  ghost function IssuedTotal(s: State, id: string): int {
    MapSum(Unrecorded(s, [], id))
  }

  lemma {:induction false} RowsAndRest(s: State, id: string, n: nat)
    requires Inv(s) && n <= |s.refunds|
    ensures IssuedTotal(s, id) == P.RefundedTotal(s.refunds[..n], id) + MapSum(Unrecorded(s, s.refunds[..n], id))
    decreases n
  {
    hide MapSum, P.RefundedTotal, Inv, KeyOf;
    if n == 0 {
      assert s.refunds[..0] == [];
      NoRows(id);
    } else {
      RowsAndRest(s, id, n - 1);
      var row := s.refunds[n - 1];
      assert s.refunds[..n] == s.refunds[..n - 1] + [row];
      TotalGrows(s.refunds[..n - 1], row, id);
      RowTakesOne(s, id, n - 1);
      if row.paymentId == id {
        MapSumPick(Unrecorded(s, s.refunds[..n - 1], id), ProviderKey(row.key));
      }
    }
  }

  lemma NoRows(id: string)
    ensures P.RefundedTotal([], id) == 0
  {
  }

  /** One more row takes its own provider refund, and no other, out of the unrecorded ones. */
  lemma RowTakesOne(s: State, id: string, n: nat)
    requires Inv(s) && n < |s.refunds|
    ensures var before, k := Unrecorded(s, s.refunds[..n], id), ProviderKey(s.refunds[n].key);
            if s.refunds[n].paymentId == id
            then k in before && before[k] == s.refunds[n].amount && Unrecorded(s, s.refunds[..n + 1], id) == before - {k}
            else Unrecorded(s, s.refunds[..n + 1], id) == before
  {
    hide Inv, HasRow, KeyOf, ProviderKey, P.RefundedTotal;
    RowFacts(s, n);
    forall k ensures HasRow(s.refunds[..n + 1], k) <==> HasRow(s.refunds[..n], k) || k == ProviderKey(s.refunds[n].key) {
      OneMoreRow(s.refunds, n, k);
    }
  }

  lemma OneMoreRow(refunds: seq<P.RefundRow>, n: nat, k: string)
    requires n < |refunds|
    ensures HasRow(refunds[..n + 1], k) <==> HasRow(refunds[..n], k) || k == ProviderKey(refunds[n].key)
  {
    hide ProviderKey;
    assert forall i :: 0 <= i < n ==> refunds[..n + 1][i] == refunds[..n][i];
    assert refunds[..n + 1][n] == refunds[n];
  }

  lemma RowFacts(s: State, n: nat)
    requires Inv(s) && n < |s.refunds|
    ensures var row := s.refunds[n];
            && ProviderKey(row.key) in s.issued && s.issued[ProviderKey(row.key)].amount == row.amount
            && (forall id :: KeyOf(ProviderKey(row.key), id) <==> id == row.paymentId)
            && !HasRow(s.refunds[..n], ProviderKey(row.key))
  {
    var row := s.refunds[n];
    assert RowBacked(s, row);
    assert ProviderKey(row.key)[..7] == "refund:" && ProviderKey(row.key)[7..] == row.key;
    forall i | 0 <= i < n ensures ProviderKey(s.refunds[..n][i].key) != ProviderKey(row.key) {
      if ProviderKey(s.refunds[i].key) == ProviderKey(row.key) {
        ProviderKeysDiffer(s.refunds[i].key, row.key);
      }
    }
  }

  /**
   In every reachable state, the money sent back for a payment is what its rows say
   plus the provider refunds that have no row.
   */
  lemma IssuedIsRowsAndRest(s: State, steps: seq<Step>, id: string)
    requires Inv(s)
    ensures var t := After(s, steps);
            IssuedTotal(t, id) == Total(t, id) + MapSum(Unrecorded(t, t.refunds, id))
  {
    hide Inv, After;
    AfterInv(s, steps);
    var t := After(s, steps);
    RowsAndRest(t, id, |t.refunds|);
    assert t.refunds[..|t.refunds|] == t.refunds;
  }

  /** The step separates a refund the provider has made from the request that should record it. */
  predicate Loses(s: State, step: Step, id: string) {
    match step
    case CallProvider(n, w) =>
      && n in s.calls && s.calls[n].Ready? && s.calls[n].paymentId == id && w.replyLost
      && Issue(s.issued, ProviderKey(s.calls[n].key), s.calls[n], w).0.Some?
    case Crash(n) => n in s.calls && s.calls[n].Called? && s.calls[n].paymentId == id
    case _ => false
  }

  predicate NoneLost(s: State, steps: seq<Step>, id: string) {
    forall k :: 0 <= k < |steps| ==> !Loses(After(s, steps[..k]), steps[k], id)
  }

  /** Every provider refund of the payment without a row has an open request about to write it. */
  ghost predicate Attended(s: State, id: string) {
    forall k :: k in Unrecorded(s, s.refunds, id) ==>
      exists n :: n in s.calls && s.calls[n].Called? && s.calls[n].paymentId == id && ProviderKey(s.calls[n].key) == k
  }

  lemma CallAttends(s: State, n: nat, w: World, id: string)
    requires Inv(s) && Attended(s, id) && !Loses(s, CallProvider(n, w), id)
    ensures Attended(Next(s, CallProvider(n, w)), id)
  {
    hide Inv, HasRow, ProviderKey, IdUsed;
    var s' := Next(s, CallProvider(n, w));
    if n in s.calls && s.calls[n].Ready? {
      var c := s.calls[n];
      CallScoped(s, n);
      forall k | k in Unrecorded(s', s'.refunds, id)
        ensures exists m :: m in s'.calls && s'.calls[m].Called? && s'.calls[m].paymentId == id
                            && ProviderKey(s'.calls[m].key) == k
      {
        if k in s.issued {
          assert k in Unrecorded(s, s.refunds, id);
          var m :| m in s.calls && s.calls[m].Called? && s.calls[m].paymentId == id && ProviderKey(s.calls[m].key) == k;
          assert s'.calls[m] == s.calls[m];
        } else {
          assert k == ProviderKey(c.key) && c.paymentId == id;
          assert s'.calls[n].Called? && s'.calls[n].key == c.key;
        }
      }
    }
  }

  lemma CallScoped(s: State, n: nat)
    requires Inv(s) && n in s.calls
    ensures forall id :: KeyOf(ProviderKey(s.calls[n].key), id) ==> id == s.calls[n].paymentId
    ensures KeyOf(ProviderKey(s.calls[n].key), s.calls[n].paymentId)
    ensures s.calls[n].amount > 0
    ensures s.calls[n].Called? ==>
              ProviderKey(s.calls[n].key) in s.issued
              && s.issued[ProviderKey(s.calls[n].key)].amount == s.calls[n].amount
  {
    assert Serves(s, s.calls[n]);
    assert ProviderKey(s.calls[n].key)[..7] == "refund:" && ProviderKey(s.calls[n].key)[7..] == s.calls[n].key;
  }

  lemma RecordAttends(s: State, n: nat, id: string)
    requires Inv(s) && Attended(s, id)
    ensures Attended(Next(s, Record(n)), id)
  {
    hide Inv, KeyOf, ProviderKey;
    var s' := Next(s, Record(n));
    if n in s.calls && s.calls[n].Called? {
      var c := s.calls[n];
      CallScoped(s, n);
      P.FindRefund(s.refunds, c.key);
      RecordedHasRow(s, n);
      forall k | k in Unrecorded(s', s'.refunds, id)
        ensures exists m :: m in s'.calls && s'.calls[m].Called? && s'.calls[m].paymentId == id
                            && ProviderKey(s'.calls[m].key) == k
      {
        RowStays(s.refunds, RowOf(c), k);
        assert k in Unrecorded(s, s.refunds, id);
        var m :| m in s.calls && s.calls[m].Called? && s.calls[m].paymentId == id && ProviderKey(s.calls[m].key) == k;
        assert m != n;
        assert s'.calls[m] == s.calls[m];
      }
    }
  }

  lemma RowStays(refunds: seq<P.RefundRow>, row: P.RefundRow, k: string)
    ensures HasRow(refunds, k) ==> HasRow(refunds + [row], k)
  {
    hide ProviderKey;
    assert forall i :: 0 <= i < |refunds| ==> (refunds + [row])[i] == refunds[i];
  }

  lemma RecordedHasRow(s: State, n: nat)
    requires Inv(s) && n in s.calls && s.calls[n].Called?
    ensures HasRow(Next(s, Record(n)).refunds, ProviderKey(s.calls[n].key))
  {
    hide ProviderKey;
    CallScoped(s, n);
    var c, s' := s.calls[n], Next(s, Record(n));
    P.FindRefund(s.refunds, c.key);
    if P.FindRefundByKey(s.refunds, c.key).None? {
      assert s'.refunds[|s.refunds|].key == c.key;
    } else {
      var i :| 0 <= i < |s.refunds| && s.refunds[i].key == c.key;
      assert s'.refunds[i].key == c.key;
    }
  }

  lemma NextAttends(s: State, step: Step, id: string)
    requires Inv(s) && Attended(s, id) && !Loses(s, step, id)
    ensures Attended(Next(s, step), id)
  {
    hide Inv, Check, Issue, HasRow, KeyOf, P.RecordRefund;
    match step {
      case CallProvider(n, w) => CallAttends(s, n, w, id);
      case Record(n) => RecordAttends(s, n, id);
      case _ =>
        var s' := Next(s, step);
        forall k | k in Unrecorded(s', s'.refunds, id)
          ensures exists m :: m in s'.calls && s'.calls[m].Called? && s'.calls[m].paymentId == id
                              && ProviderKey(s'.calls[m].key) == k
        {
          assert k in Unrecorded(s, s.refunds, id);
          var m :| m in s.calls && s.calls[m].Called? && s.calls[m].paymentId == id && ProviderKey(s.calls[m].key) == k;
          assert m in s'.calls && s'.calls[m] == s.calls[m];
        }
    }
  }

  lemma {:induction false} AfterAttends(s: State, steps: seq<Step>, id: string)
    requires Inv(s) && Attended(s, id) && NoneLost(s, steps, id)
    ensures Attended(After(s, steps), id)
    decreases |steps|
  {
    hide Inv, Attended, Next, Loses;
    if steps != [] {
      var n := |steps| - 1;
      assert forall k :: 0 <= k < n ==> steps[..n][..k] == steps[..k] && steps[..n][k] == steps[k];
      AfterAttends(s, steps[..n], id);
      AfterInv(s, steps[..n]);
      NextAttends(After(s, steps[..n]), steps[n], id);
    }
  }

  /**
   The way back from the money to the rows: if no refund on the payment lost its
   request and none is open any more, every provider refund of it has its row.
   */
  lemma EveryRefundHasItsRow(s: State, steps: seq<Step>, id: string)
    requires Inv(s) && Attended(s, id) && NoneLost(s, steps, id) && !OpenOn(After(s, steps), id)
    ensures var t := After(s, steps);
            forall k :: k in t.issued && KeyOf(k, id) ==> HasRow(t.refunds, k)
  {
    hide Inv, KeyOf, HasRow;
    AfterAttends(s, steps, id);
    var t := After(s, steps);
    forall k | k in t.issued && KeyOf(k, id) ensures HasRow(t.refunds, k) {
      assert k !in Unrecorded(t, t.refunds, id);
    }
  }

  /** With at most one request open and nothing lost, the money is the rows and the refund on its way to its row. */
  lemma OnTheWay(s: State, id: string)
    requires Inv(s) && Attended(s, id) && InBounds(s, id)
    ensures IssuedTotal(s, id) == Total(s, id)
         || exists n :: n in s.calls && s.calls[n].Called? && s.calls[n].paymentId == id
                        && IssuedTotal(s, id) == Total(s, id) + s.calls[n].amount
  {
    hide Inv, KeyOf, HasRow, Fits, P.RefundedTotal;
    RowsAndRest(s, id, |s.refunds|);
    assert s.refunds[..|s.refunds|] == s.refunds;
    var rest := Unrecorded(s, s.refunds, id);
    if k :| k in rest {
      var n :| n in s.calls && s.calls[n].Called? && s.calls[n].paymentId == id && ProviderKey(s.calls[n].key) == k;
      CallScoped(s, n);
      assert forall l :: l in rest ==> l == k;
      MapSumInsert(map[], k, s.calls[n].amount);
      assert rest == map[k := s.calls[n].amount];
    } else {
      assert rest == map[];
    }
  }

  /** The provider's refund leaves the money sent within the ceiling, if the actor lacks the capability to pass it. */
  ghost predicate CeilingKeptByMoney(s: State, step: Step, id: string) {
    step.CallProvider? && step.call in s.calls && s.calls[step.call].Ready? && s.calls[step.call].paymentId == id
    && !Unlimited(s.calls[step.call].actor) ==>
      IssuedTotal(Next(s, step), id) <= REFUND_CEILING_MINOR
  }

  /**
   The same bounds for the money: if requests on one payment do not overlap, and no
   provider refund on it loses its request, the money sent back for it stays within
   its amount, and within the ceiling when an actor without the capability sends it.
   */
  lemma MoneyWithinBounds(s: State, steps: seq<Step>, id: string)
    requires Inv(s) && id in s.payments && Total(s, id) <= s.payments[id].amount && !OpenOn(s, id)
    requires Attended(s, id) && Unmixed(s, steps, id) && NoneLost(s, steps, id)
    ensures IssuedTotal(After(s, steps), id) <= s.payments[id].amount
    ensures forall k :: 0 <= k < |steps| ==> CeilingKeptByMoney(After(s, steps[..k]), steps[k], id)
  {
    hide Inv, P.RefundedTotal, Next, OpenOn, Fits, Attended, Loses, InBounds, IssuedTotal;
    NoneOpen(s, id);
    StateBounds(s, steps, id, |steps|);
    assert steps[..|steps|] == steps;
    forall k | 0 <= k < |steps| ensures CeilingKeptByMoney(After(s, steps[..k]), steps[k], id) {
      StateBounds(s, steps, id, k);
      StateBounds(s, steps, id, k + 1);
      assert steps[..k + 1][..k] == steps[..k] && steps[..k + 1][k] == steps[k];
      assert After(s, steps[..k + 1]) == Next(After(s, steps[..k]), steps[k]);
      CallKeepsCeiling(After(s, steps[..k]), steps[k], id);
    }
  }

  /** What is known after the first `n` steps. */
  lemma StateBounds(s: State, steps: seq<Step>, id: string, n: nat)
    requires Inv(s) && InBounds(s, id) && Attended(s, id) && Unmixed(s, steps, id) && NoneLost(s, steps, id)
    requires n <= |steps|
    ensures var t := After(s, steps[..n]);
            && Inv(t) && InBounds(t, id) && Attended(t, id)
            && id in s.payments && IssuedTotal(t, id) <= s.payments[id].amount
  {
    hide Inv, P.RefundedTotal, Next, After, OpenOn, Attended, Loses, InBounds, IssuedTotal;
    var t := After(s, steps[..n]);
    UnmixedPrefix(s, steps, id, n);
    assert forall k :: 0 <= k < n ==> steps[..n][..k] == steps[..k] && steps[..n][k] == steps[k];
    AfterInv(s, steps[..n]);
    AfterInBounds(s, steps[..n], id);
    AfterAttends(s, steps[..n], id);
    OnTheWay(t, id);
    InBoundsKnows(t, id);
    InBoundsKnows(s, id);
    if m :| m in t.calls && t.calls[m].Called? && t.calls[m].paymentId == id
            && IssuedTotal(t, id) == Total(t, id) + t.calls[m].amount {
      CallFits(t, m, id);
    }
  }

  lemma CallFits(s: State, n: nat, id: string)
    requires InBounds(s, id) && n in s.calls && s.calls[n].paymentId == id
    ensures Fits(s, s.calls[n])
    ensures forall m :: m in s.calls && s.calls[m].paymentId == id ==> m == n
  {
  }

  lemma CallKeepsCeiling(s: State, step: Step, id: string)
    requires InBounds(s, id) && InBounds(Next(s, step), id) && Inv(Next(s, step)) && Attended(Next(s, step), id)
    ensures CeilingKeptByMoney(s, step, id)
  {
    hide Inv, P.RefundedTotal, Attended, IssuedTotal, Issue, InBounds;
    var t := Next(s, step);
    if step.CallProvider? && step.call in s.calls && s.calls[step.call].Ready? && s.calls[step.call].paymentId == id {
      var n := step.call;
      CallFits(s, n, id);
      OnTheWay(t, id);
      if m :| m in t.calls && t.calls[m].Called? && t.calls[m].paymentId == id
              && IssuedTotal(t, id) == Total(t, id) + t.calls[m].amount {
        assert m in s.calls && s.calls[m].paymentId == id;
        assert m == n;
      }
    }
  }

  // -------------------------------------------------------- a refund that is lost

  /** The provider makes the refund, but its reply is lost or the handler dies. */
  predicate Strands(s: State, q: Request, w: World) {
    && !w.refuse && (w.replyLost || w.crashAfter) && !IdUsed(s.issued, w.freshId)
    && ProviderKey(ScopedKey(q.paymentId, q.header)) !in s.issued
  }

  lemma StrandedState(s: State, q: Request, x: int, w: World)
    requires Asked(s, q, x) && Allowed(s, q, x) && Strands(s, q, w)
    ensures var p, k := s.payments[q.paymentId], ProviderKey(ScopedKey(q.paymentId, q.header));
            Handle(s, q, w).1 == s.(issued := s.issued[k := Issued(w.freshId, p.intent.value, x, p.currency)])
  {
    hide P.RefundedTotal, P.FindRefundByKey, ScopedKey, ProviderKey, IdUsed;
    P.FindRefund(s.refunds, ScopedKey(q.paymentId, q.header));
  }

  lemma AnsweredState(s: State, q: Request, x: int, w: World)
    requires Asked(s, q, x) && Allowed(s, q, x) && Answers(s, q, w) && !w.crashAfter
    ensures var p, k := s.payments[q.paymentId], ProviderKey(ScopedKey(q.paymentId, q.header));
            Handle(s, q, w).1
            == s.(issued := s.issued[k := Issued(w.freshId, p.intent.value, x, p.currency)],
                  refunds := s.refunds + [RowOf(CalledFor(s, q, x, w.freshId))])
  {
    hide P.RefundedTotal, P.FindRefundByKey, ScopedKey, ProviderKey, IdUsed;
    P.FindRefund(s.refunds, ScopedKey(q.paymentId, q.header));
  }

  lemma IssuedGrows(s: State, s': State, id: string, header: string, r: Issued)
    requires |id| == UUID_LENGTH && ProviderKey(ScopedKey(id, header)) !in s.issued
    requires s'.issued == s.issued[ProviderKey(ScopedKey(id, header)) := r]
    ensures IssuedTotal(s', id) == IssuedTotal(s, id) + r.amount
  {
    hide MapSum;
    var k := ProviderKey(ScopedKey(id, header));
    assert k[..7] == "refund:" && k[7..] == ScopedKey(id, header);
    ScopedKeyIsScoped(id, header);
    hide ProviderKey, ScopedKey, Scoped;
    assert Unrecorded(s', [], id) == Unrecorded(s, [], id)[k := r.amount];
    MapSumInsert(Unrecorded(s, [], id), k, r.amount);
  }

  /**
   One request whose refund is lost, then another under a new key, one after the
   other: the rows grow by the second amount only, the money by both. So the money
   passes the payment, or the ceiling, by up to what was lost.
   */
  lemma LossOverspends(s: State, p: Request, q: Request, x: int, y: int, v: World, w: World)
    requires |p.paymentId| == UUID_LENGTH && p.paymentId == q.paymentId && p.header != q.header
    requires Asked(s, p, x) && Allowed(s, p, x) && Strands(s, p, v)
    requires Asked(s, q, y) && Allowed(s, q, y) && Answers(s, q, w) && !w.crashAfter && w.freshId != v.freshId
    ensures var id, t := p.paymentId, Handle(Handle(s, p, v).1, q, w).1;
            && Total(t, id) == Total(s, id) + y
            && IssuedTotal(t, id) == IssuedTotal(s, id) + x + y
  {
    hide ScopedKey, ProviderKey, IdUsed, P.RefundedTotal, Handle, IssuedTotal;
    var id := p.paymentId;
    var pay := s.payments[id];
    var r := Issued(v.freshId, pay.intent.value, x, pay.currency);
    KeysApart(id, p.header, q.header);
    StrandedState(s, p, x, v);
    var s1 := Handle(s, p, v).1;
    IssuedGrows(s, s1, id, p.header, r);
    StillUnused(s.issued, ProviderKey(ScopedKey(id, p.header)), r, w.freshId);
    assert Asked(s1, q, y) && Allowed(s1, q, y) && Answers(s1, q, w);
    AnsweredState(s1, q, y, w);
    IssuedGrows(s1, Handle(s1, q, w).1, id, q.header, Issued(w.freshId, pay.intent.value, y, pay.currency));
    TotalGrows(s.refunds, RowOf(CalledFor(s1, q, y, w.freshId)), id);
  }

  lemma {:induction false} TotalNeverFalls(s: State, steps: seq<Step>, id: string)
    requires id in s.payments
    ensures Total(After(s, steps), id) >= Total(s, id)
    ensures id in After(s, steps).payments && After(s, steps).payments[id].amount == s.payments[id].amount
    decreases |steps|
  {
    hide Next, P.RefundedTotal;
    if steps != [] {
      var n := |steps| - 1;
      TotalNeverFalls(s, steps[..n], id);
      StepNeverFalls(After(s, steps[..n]), steps[n], id);
    }
  }

  lemma StepNeverFalls(s: State, step: Step, id: string)
    requires id in s.payments
    ensures Total(Next(s, step), id) >= Total(s, id)
    ensures id in Next(s, step).payments && Next(s, step).payments[id].amount == s.payments[id].amount
  {
    hide P.RefundedTotal, Check, Issue, P.FindRefundByKey;
    if step.Record? {
      RecordAdds(s, step.call, id);
    }
  }

  /**
   A lost refund that no longer fits is lost for good: whatever happens later, its
   request never reaches the provider again.
   */
  lemma LostForGood(s: State, q: Request, x: int, steps: seq<Step>)
    requires q.body == Some(x) && q.paymentId in s.payments
    requires || Total(s, q.paymentId) + x > s.payments[q.paymentId].amount
             || (!Unlimited(q.actor) && Total(s, q.paymentId) + x > REFUND_CEILING_MINOR)
    ensures Check(After(s, steps), q).1.None?
  {
    hide P.RefundedTotal, P.FindRefundByKey, After;
    TotalNeverFalls(s, steps, q.paymentId);
  }

  /** The provider's refund under this payment and header can still be recorded. */
  predicate Recordable(s: State, id: string, header: string, x: int) {
    && id in s.payments && s.payments[id].status == P.Succeeded
    && s.payments[id].intent.Some? && s.payments[id].intent.value != ""
    && 8 <= |header| <= 200 && P.FindRefundByKey(s.refunds, ScopedKey(id, header)).None?
    && 0 < x <= s.payments[id].amount - Total(s, id)
  }

  /**
   Some request can still give a provider refund its row if and only if the payment
   is still refundable and the refund fits in what the rows leave of it; then the
   row carries the refund's own id and amount, and the provider sends nothing more.
   */
  lemma RecordableIff(s: State, id: string, header: string, r: Issued)
    requires ProviderKey(ScopedKey(id, header)) in s.issued && s.issued[ProviderKey(ScopedKey(id, header))] == r
    requires id in s.payments && s.payments[id].intent == Some(r.intent)
    ensures (exists q: Request, w: World :: q.paymentId == id && q.header == header && Handle(s, q, w).1.refunds != s.refunds)
       <==> Recordable(s, id, header, r.amount)
    ensures forall q: Request, w: World :: q.paymentId == id && q.header == header && Handle(s, q, w).1.refunds != s.refunds ==>
              && Handle(s, q, w).1.issued == s.issued
              && Handle(s, q, w).1.refunds
                 == s.refunds + [P.RefundRow(id, ScopedKey(id, header), r.amount, r.id, q.actor.userId)]
  {
    hide P.RefundedTotal, P.FindRefundByKey, ScopedKey, ProviderKey;
    var actor := Actor("", {PaymentsRefund, PaymentsRefundOverCeiling});
    var q, w := Request(id, header, Some(r.amount), actor), World("", false, false, false);
    if Recordable(s, id, header, r.amount) {
      assert Handle(s, q, w).1.refunds != s.refunds;
    }
  }

  // ---------------------------------------------------------- the refund's event

  /** The provider's event for a refund it made, as the webhook receives it. */
  predicate EventOf(e: M.StripeEvent, r: Issued) {
    e.typ == "refund.created" && e.objectId == r.id && e.amount == r.amount && e.currency == r.currency
  }

  /** Delivering a refund's event does to the books what the webhook does with that event. */
  lemma EventIsDelivery(s: State, k: string, v: W.View, e: M.StripeEvent)
    requires k in s.issued && EventOf(e, s.issued[k]) && v.book == s.book && e.id !in v.inbox
    ensures Next(s, DeliverRefundEvent(k)) == s.(book := W.DeliverView(v, e).1.book)
  {
    W.MoneyOutByType(v, e);
    L.TemplateBalances(L.Refund, e.amount);
    hide W.DeliverView, L.Imbalance;
  }
}
