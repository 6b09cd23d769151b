/**
 The exact conditions for the refund bounds: how many requests may be open on a
 payment, and how many provider refunds may lose their request.
 */
module RefundLimits {
  import opened Prelude
  import P = Payments
  import opened Policy
  import opened Refunds
  import opened RefundBounds

  function OpenCalls(s: State, id: string): set<nat> {
    set n | n in s.calls && s.calls[n].paymentId == id
  }

  /** Never more than `k` requests on the payment are open together. */
  predicate AtMostOpen(s: State, steps: seq<Step>, id: string, k: nat) {
    forall n :: 0 <= n <= |steps| ==> |OpenCalls(After(s, steps[..n]), id)| <= k
  }

  lemma Alone(s: State, id: string, n: nat, m: nat)
    requires |OpenCalls(s, id)| <= 1 && n in OpenCalls(s, id) && m in OpenCalls(s, id)
    ensures n == m
  {
    if n != m {
      Smaller({n, m}, OpenCalls(s, id));
    }
  }

  lemma Smaller(a: set<nat>, b: set<nat>)
    requires a <= b
    ensures |a| <= |b|
  {
    assert b == a + (b - a);
  }

  /** A start that leaves one request open found none, or changed nothing. */
  lemma StepInBounds(s: State, step: Step, id: string)
    requires InBounds(s, id) && |OpenCalls(Next(s, step), id)| <= 1
    ensures InBounds(Next(s, step), id) && Next(s, step).payments[id].amount == s.payments[id].amount
  {
    hide InBounds, Check, Issue, P.RecordRefund, P.RefundedTotal;
    InBoundsKnows(s, id);
    if step.Start? && step.request.paymentId == id && Next(s, step) != s {
      var s' := Next(s, step);
      CallIsForItsPayment(s, step.request);
      if OpenOn(s, id) {
        var m :| m in s.calls && s.calls[m].paymentId == id;
        assert s'.calls[m] == s.calls[m];
        Alone(s', id, m, step.call);
      }
      NextInBounds(s, step, id);
    } else if step.Start? && step.request.paymentId == id {
      assert Next(s, step) == s;
    } else {
      NextInBounds(s, step, id);
    }
  }

  lemma CallIsForItsPayment(s: State, q: Request)
    ensures Check(s, q).1.Some? ==> Check(s, q).1.value.paymentId == q.paymentId
  {
    hide P.RefundedTotal, P.FindRefundByKey;
  }

  lemma {:induction false} OneOpenInBounds(s: State, steps: seq<Step>, id: string)
    requires InBounds(s, id) && AtMostOpen(s, steps, id, 1)
    ensures InBounds(After(s, steps), id) && After(s, steps).payments[id].amount == s.payments[id].amount
    decreases |steps|
  {
    hide InBounds, Next, OpenCalls;
    InBoundsKnows(s, id);
    if steps != [] {
      var n := |steps| - 1;
      assert forall m :: 0 <= m <= n ==> steps[..n][..m] == steps[..m];
      assert steps[..|steps|] == steps;
      OneOpenInBounds(s, steps[..n], id);
      StepInBounds(After(s, steps[..n]), steps[n], id);
      InBoundsKnows(After(s, steps), id);
    }
  }

  predicate StartsWithin(s: State, id: string) {
    id in s.payments && Total(s, id) <= s.payments[id].amount && !OpenOn(s, id)
  }

  predicate EndsWithin(s: State, steps: seq<Step>, id: string)
    requires id in s.payments
  {
    Total(After(s, steps), id) <= s.payments[id].amount
  }

  /**
   Every schedule keeps the rows of a payment within its amount if and only if no two
   requests on the payment are open together.
   */
  lemma RowsBoundIffOneOpen(k: nat)
    ensures (forall s, steps, id :: StartsWithin(s, id) && AtMostOpen(s, steps, id, k) ==> EndsWithin(s, steps, id))
       <==> k <= 1
  {
    hide P.RefundedTotal, Next, Fold, OpenOn, AtMostOpen;
    if k <= 1 {
      forall s, steps, id | StartsWithin(s, id) && AtMostOpen(s, steps, id, k) ensures EndsWithin(s, steps, id) {
        NoneOpen(s, id);
        FewerOpen(s, steps, id, k, 1);
        OneOpenInBounds(s, steps, id);
        InBoundsKnows(After(s, steps), id);
      }
    } else {
      OverlapDoubles(100_000, false);
      FewerOpen(Fresh(), TwoAtOnce(100_000, false), ID, 2, k);
    }
  }

  lemma FewerOpen(s: State, steps: seq<Step>, id: string, k: nat, m: nat)
    requires AtMostOpen(s, steps, id, k) && k <= m
    ensures AtMostOpen(s, steps, id, m)
  {
    hide After, OpenCalls;
  }

  // --------------------------------------------------- one payment, two requests

  const ID := "00000000-0000-0000-0000-000000000000"

  /** One payment of a hundred thousand, and nothing else. */
  function Fresh(): State {
    State(map[ID := Payable(100_000, "usd", P.Succeeded, Some("pi"))], [], map[], map[], map[])
  }

  /** Two requests for `x` under two keys, by an actor who may refund, and may or may not pass the ceiling. */
  function Asker(limited: bool): Actor {
    Actor("staff", if limited then {PaymentsRefund} else {PaymentsRefund, PaymentsRefundOverCeiling})
  }

  function First(x: int, limited: bool): Request {
    Request(ID, "first-key", Some(x), Asker(limited))
  }

  function Second(x: int, limited: bool): Request {
    Request(ID, "second-key", Some(x), Asker(limited))
  }

  function Answering(id: string): World {
    World(id, false, false, false)
  }

  lemma BothAllowed(x: int, limited: bool)
    requires 0 < x <= if limited then REFUND_CEILING_MINOR else 100_000
    ensures Asked(Fresh(), First(x, limited), x) && Allowed(Fresh(), First(x, limited), x)
    ensures Asked(Fresh(), Second(x, limited), x) && Allowed(Fresh(), Second(x, limited), x)
    ensures Answers(Fresh(), First(x, limited), Answering("re1")) && Answers(Fresh(), Second(x, limited), Answering("re2"))
    ensures Total(Fresh(), ID) == 0 && |ID| == UUID_LENGTH
  {
  }

  function TwoAtOnce(x: int, limited: bool): seq<Step> {
    Overlap(0, 1, First(x, limited), Second(x, limited), Answering("re1"), Answering("re2"))
  }

  /** The calls a run opens are among those its steps name. */
  lemma {:induction false} OnlyNamedCalls(s: State, steps: seq<Step>, names: set<nat>)
    requires s.calls.Keys <= names && forall n :: 0 <= n < |steps| && steps[n].Start? ==> steps[n].call in names
    ensures After(s, steps).calls.Keys <= names
    decreases |steps|
  {
    hide Next;
    if steps != [] {
      var n := |steps| - 1;
      OnlyNamedCalls(s, steps[..n], names);
      NamedStep(After(s, steps[..n]), steps[n], names);
    }
  }

  lemma NamedStep(s: State, step: Step, names: set<nat>)
    requires s.calls.Keys <= names && (step.Start? ==> step.call in names)
    ensures Next(s, step).calls.Keys <= names
  {
    hide Check, Issue, P.RecordRefund;
  }

  lemma NamedAtMost(s: State, steps: seq<Step>, id: string, names: set<nat>)
    requires s.calls.Keys <= names && forall n :: 0 <= n < |steps| && steps[n].Start? ==> steps[n].call in names
    ensures AtMostOpen(s, steps, id, |names|)
  {
    hide After;
    forall n | 0 <= n <= |steps| ensures |OpenCalls(After(s, steps[..n]), id)| <= |names| {
      OnlyNamedCalls(s, steps[..n], names);
      Smaller(OpenCalls(After(s, steps[..n]), id), names);
    }
  }

  /** Both requests go through, and twice the amount is refunded. */
  lemma OverlapDoubles(x: int, limited: bool)
    requires 0 < x <= if limited then REFUND_CEILING_MINOR else 100_000
    ensures StartsWithin(Fresh(), ID) && AtMostOpen(Fresh(), TwoAtOnce(x, limited), ID, 2)
    ensures Total(Fresh(), ID) == 0 && Total(After(Fresh(), TwoAtOnce(x, limited)), ID) == x + x
  {
    hide P.RefundedTotal, Asked, Allowed, Answers, After, Next;
    BothAllowed(x, limited);
    OverlapAddsUp(Fresh(), First(x, limited), Second(x, limited), x, x, Answering("re1"), Answering("re2"), 0, 1);
    NamedAtMost(Fresh(), TwoAtOnce(x, limited), ID, {0, 1});
  }

  // ---------------------------------------------------------------- the ceiling

  /** Every row an actor without the capability writes leaves the payment within the ceiling. */
  predicate CeilingHolds(s: State, steps: seq<Step>, id: string) {
    forall n :: 0 <= n < |steps| ==> CeilingKept(After(s, steps[..n]), steps[n], id)
  }

  /** No open call, and no request, is by an actor who may pass the ceiling. */
  predicate NobodyUnlimited(s: State, steps: seq<Step>) {
    && (forall n :: n in s.calls ==> !Unlimited(s.calls[n].actor))
    && (forall n :: 0 <= n < |steps| && steps[n].Start? ==> !Unlimited(steps[n].request.actor))
  }

  lemma LimitedStep(s: State, step: Step)
    requires NobodyUnlimited(s, [step])
    ensures NobodyUnlimited(Next(s, step), [])
  {
    hide Issue, P.RecordRefund, P.RefundedTotal, P.FindRefundByKey;
    assert [step][0] == step;
  }

  lemma LimitedTotal(s: State, step: Step, id: string)
    requires NobodyUnlimited(s, [step]) && CeilingKept(s, step, id) && Total(s, id) <= REFUND_CEILING_MINOR
    ensures Total(Next(s, step), id) <= REFUND_CEILING_MINOR
  {
    hide P.RefundedTotal, P.FindRefundByKey, Check, Issue;
    if step.Record? {
      RecordAdds(s, step.call, id);
    }
  }

  /** If the ceiling binds every actor, rows by nobody else stay within it. */
  lemma {:induction false} LimitedStaysWithin(s: State, steps: seq<Step>, id: string)
    requires NobodyUnlimited(s, steps) && CeilingHolds(s, steps, id) && Total(s, id) <= REFUND_CEILING_MINOR
    ensures Total(After(s, steps), id) <= REFUND_CEILING_MINOR && NobodyUnlimited(After(s, steps), [])
    decreases |steps|
  {
    hide Next, CeilingKept, P.RefundedTotal;
    if steps != [] {
      var n := |steps| - 1;
      assert forall m :: 0 <= m < n ==> steps[..n][..m] == steps[..m] && steps[..n][m] == steps[m];
      LimitedStaysWithin(s, steps[..n], id);
      LimitedStep(After(s, steps[..n]), steps[n]);
      LimitedTotal(After(s, steps[..n]), steps[n], id);
    }
  }

  /**
   Every schedule keeps the ceiling for the actors it binds if and only if no two
   requests on the payment are open together.
   */
  lemma CeilingIffOneOpen(k: nat)
    ensures (forall s, steps, id :: StartsWithin(s, id) && AtMostOpen(s, steps, id, k) ==> CeilingHolds(s, steps, id))
       <==> k <= 1
  {
    hide P.RefundedTotal, Next, Fold, OpenOn, AtMostOpen, CeilingHolds;
    if k <= 1 {
      forall s, steps, id | StartsWithin(s, id) && AtMostOpen(s, steps, id, k) ensures CeilingHolds(s, steps, id) {
        NoneOpen(s, id);
        FewerOpen(s, steps, id, k, 1);
        OneOpenKeepsCeiling(s, steps, id);
      }
    } else {
      OverlapDoubles(REFUND_CEILING_MINOR, true);
      var steps := TwoAtOnce(REFUND_CEILING_MINOR, true);
      FewerOpen(Fresh(), steps, ID, 2, k);
      if CeilingHolds(Fresh(), steps, ID) {
        LimitedStaysWithin(Fresh(), steps, ID);
      }
    }
  }

  lemma OneOpenKeepsCeiling(s: State, steps: seq<Step>, id: string)
    requires InBounds(s, id) && AtMostOpen(s, steps, id, 1)
    ensures CeilingHolds(s, steps, id)
  {
    hide InBounds, CeilingKept, OpenCalls, Next, Fold;
    forall n | 0 <= n < |steps| ensures CeilingKept(After(s, steps[..n]), steps[n], id) {
      assert forall m :: 0 <= m <= n ==> steps[..n][..m] == steps[..m];
      OneOpenInBounds(s, steps[..n], id);
      RecordKeepsCeiling(After(s, steps[..n]), steps[n], id);
    }
  }

  // ----------------------------------------------------------- the money sent

  /** The positions of a run at which a provider refund on the payment loses its request. */
  function Losses(s: State, steps: seq<Step>, id: string): set<nat> {
    set n | 0 <= n < |steps| && Loses(After(s, steps[..n]), steps[n], id)
  }

  ghost predicate MoneyStarts(s: State, id: string) {
    Inv(s) && StartsWithin(s, id) && Attended(s, id)
  }

  ghost predicate MoneyEndsWithin(s: State, steps: seq<Step>, id: string)
    requires id in s.payments
  {
    IssuedTotal(After(s, steps), id) <= s.payments[id].amount
  }

  /**
   With requests on the payment one at a time, every schedule keeps the money sent
   within its amount if and only if no provider refund may lose its request.
   */
  lemma MoneyBoundIffNoneLost(l: nat)
    ensures (forall s, steps, id ::
               MoneyStarts(s, id) && Unmixed(s, steps, id) && |Losses(s, steps, id)| <= l ==> MoneyEndsWithin(s, steps, id))
       <==> l == 0
  {
    hide P.RefundedTotal, Next, Fold, OpenOn, Inv, Attended, IssuedTotal, Loses, Unmixed;
    if l == 0 {
      forall s, steps, id | MoneyStarts(s, id) && Unmixed(s, steps, id) && |Losses(s, steps, id)| <= l
        ensures MoneyEndsWithin(s, steps, id)
      {
        NoLosses(s, steps, id);
        MoneyWithinBounds(s, steps, id);
      }
    } else {
      LostOverspends();
    }
  }

  lemma NoLosses(s: State, steps: seq<Step>, id: string)
    requires |Losses(s, steps, id)| <= 0
    ensures NoneLost(s, steps, id)
  {
    hide Next, Fold, Loses;
    forall n | 0 <= n < |steps| ensures !Loses(After(s, steps[..n]), steps[n], id) {
      assert n !in Losses(s, steps, id);
    }
  }

  function Dying(id: string): World {
    World(id, false, false, true)
  }

  /** The first request dies after the provider made its refund; then the second is made. */
  function DieThenAgain(): seq<Step> {
    [Start(0, First(100_000, false)), CallProvider(0, Dying("re1")), Crash(0)]
    + [Start(0, Second(100_000, false)), CallProvider(0, Answering("re2")), Record(0)]
  }

  lemma FreshStarts()
    ensures MoneyStarts(Fresh(), ID)
  {
    BothAllowed(100_000, false);
  }

  lemma LostOverspends()
    ensures MoneyStarts(Fresh(), ID) && Unmixed(Fresh(), DieThenAgain(), ID)
    ensures |Losses(Fresh(), DieThenAgain(), ID)| <= 1 && !MoneyEndsWithin(Fresh(), DieThenAgain(), ID)
  {
    hide P.RefundedTotal, Next, Fold, Handle, Inv, Attended, IssuedTotal, Asked, Allowed, Answers, Strands;
    FreshStarts();
    BothAllowed(100_000, false);
    var s := Fresh();
    var s1 := Handle(s, First(100_000, false), Dying("re1")).1;
    FirstDies();
    HandleIsSteps(s, First(100_000, false), Dying("re1"), 0);
    HandleIsSteps(s1, Second(100_000, false), Answering("re2"), 0);
    FoldThree(Next, s, Start(0, First(100_000, false)), CallProvider(0, Dying("re1")), Crash(0));
    FoldThree(Next, s1, Start(0, Second(100_000, false)), CallProvider(0, Answering("re2")), Record(0));
    FoldSplit(Next, s, [Start(0, First(100_000, false)), CallProvider(0, Dying("re1")), Crash(0)],
              [Start(0, Second(100_000, false)), CallProvider(0, Answering("re2")), Record(0)]);
    LossOverspends(s, First(100_000, false), Second(100_000, false), 100_000, 100_000, Dying("re1"), Answering("re2"));
    NothingSentYet();
    OneLoss(s);
    OneByOne(s, s1);
  }

  lemma FirstDies()
    ensures Strands(Fresh(), First(100_000, false), Dying("re1"))
    ensures Handle(Fresh(), First(100_000, false), Dying("re1")).1.calls == map[]
  {
  }

  lemma NothingSentYet()
    ensures IssuedTotal(Fresh(), ID) == 0
  {
    assert Unrecorded(Fresh(), [], ID) == map[];
  }

  /** Only its third step can lose a refund. */
  lemma OneLoss(s: State)
    ensures |Losses(s, DieThenAgain(), ID)| <= 1
  {
    hide Next, Fold, Issue;
    Smaller(Losses(s, DieThenAgain(), ID), {2});
  }

  /** Each of the two requests starts with none open. */
  lemma OneByOne(s: State, s1: State)
    requires s.calls == map[] && s1.calls == map[] && After(s, DieThenAgain()[..3]) == s1
    ensures Unmixed(s, DieThenAgain(), ID)
  {
    hide Next, Fold;
    assert DieThenAgain()[..0] == [];
    StartState(s);
  }

  lemma StartState(s: State)
    ensures After(s, []) == s
  {
  }
}
