/** The provider's balance transactions: a newest-first list that grows while it is being read. */
module Provider {
  import opened Prelude
  import opened M = StripeMapping

  datatype Page = Page(data: seq<BalanceTxn>, hasMore: bool)

  predicate DistinctIds(txns: seq<BalanceTxn>) {
    forall i, j :: 0 <= i < j < |txns| ==> txns[i].id != txns[j].id
  }

  /** The list once every scheduled arrival is in; new items go to the front. */
  ghost function Everything(future: seq<seq<BalanceTxn>>, txns: seq<BalanceTxn>): seq<BalanceTxn> {
    if future == [] then txns else Everything(future[1..], future[0] + txns)
  }

  predicate InWindow(t: BalanceTxn, gte: Option<int>) {
    gte.Some? ==> t.created >= gte.value
  }

  /** The transactions a `created >= gte` filter leaves, in list order. */
  function Window(txns: seq<BalanceTxn>, gte: Option<int>): seq<BalanceTxn> {
    if txns == [] then
      []
    else
      (if InWindow(txns[0], gte) then [txns[0]] else []) + Window(txns[1..], gte)
  }

  /** The part of a list strictly after the cursor id; all of it without a cursor. */
  function After(txns: seq<BalanceTxn>, cursor: Option<string>): seq<BalanceTxn> {
    match cursor
    case None => txns
    case Some(id) =>
      if txns == [] then [] else if txns[0].id == id then txns[1..] else After(txns[1..], cursor)
  }

  function PageOf(txns: seq<BalanceTxn>, gte: Option<int>, cursor: Option<string>, limit: nat): Page {
    var rest := After(Window(txns, gte), cursor);
    if |rest| <= limit then Page(rest, false) else Page(rest[..limit], true)
  }

  lemma {:induction false} WindowSplit(a: seq<BalanceTxn>, b: seq<BalanceTxn>, gte: Option<int>)
    ensures Window(a + b, gte) == Window(a, gte) + Window(b, gte)
    decreases |a|
  {
    if a == [] {
      assert a + b == b;
    } else {
      WindowSplit(a[1..], b, gte);
      var head := if InWindow(a[0], gte) then [a[0]] else [];
      assert (a + b)[0] == a[0] && (a + b)[1..] == a[1..] + b;
      assert Window(a + b, gte) == head + Window((a + b)[1..], gte);
      assert head + (Window(a[1..], gte) + Window(b, gte)) == (head + Window(a[1..], gte)) + Window(b, gte);
    }
  }

  /** The window is exactly the listed transactions that satisfy the filter. */
  lemma {:induction false} WindowExact(txns: seq<BalanceTxn>, gte: Option<int>, t: BalanceTxn)
    ensures t in Window(txns, gte) <==> t in txns && InWindow(t, gte)
    decreases |txns|
  {
    if txns != [] {
      WindowExact(txns[1..], gte, t);
      assert txns == [txns[0]] + txns[1..];
    }
  }

  predicate IdIn(txns: seq<BalanceTxn>, id: string) {
    exists i :: 0 <= i < |txns| && txns[i].id == id
  }

  lemma {:induction false} WindowIds(txns: seq<BalanceTxn>, gte: Option<int>)
    requires DistinctIds(txns)
    ensures DistinctIds(Window(txns, gte))
    ensures forall id :: IdIn(Window(txns, gte), id) ==> IdIn(txns, id)
    decreases |txns|
  {
    if txns != [] {
      var rest := Window(txns[1..], gte);
      WindowIds(txns[1..], gte);
      forall id | IdIn(rest, id) ensures IdIn(txns, id) && id != txns[0].id {
        assert IdIn(txns[1..], id);
        var i :| 0 <= i < |txns[1..]| && txns[1..][i].id == id;
        assert txns[i + 1].id == id;
      }
      forall i | 0 <= i < |rest| ensures rest[i].id != txns[0].id {
        assert IdIn(rest, rest[i].id);
      }
      forall id | IdIn(Window(txns, gte), id) ensures IdIn(txns, id) {
        var i :| 0 <= i < |Window(txns, gte)| && Window(txns, gte)[i].id == id;
        if id != txns[0].id {
          assert Window(txns, gte)[i] in rest;
          assert IdIn(rest, id);
        }
      }
    }
  }

  /** A cursor finds its place again even when the list has grown at the front. */
  lemma {:induction false} AfterCursor(front: seq<BalanceTxn>, w: seq<BalanceTxn>, k: nat)
    requires k < |w| && DistinctIds(front + w)
    ensures After(front + w, Some(w[k].id)) == w[k + 1..]
    decreases |front| + k
  {
    var all := front + w;
    if front != [] {
      assert all[0].id != w[k].id by {
        assert all[|front| + k] == w[k];
      }
      assert all[1..] == front[1..] + w;
      AfterCursor(front[1..], w, k);
    } else {
      assert all == w;
      if k > 0 {
        assert w[1..] == [] + w[1..] && w[0].id != w[k].id;
        AfterCursor([], w[1..], k - 1);
        assert w[1..][k..] == w[k + 1..];
      }
    }
  }

  class Client {
    var txns: seq<BalanceTxn>
    // What arrives at the provider just before each of the next calls.
    var future: seq<seq<BalanceTxn>>
    var calls: nat

    /** Ids are unique, now and in every list still to be seen. */
    ghost predicate Valid()
      reads this
    {
      DistinctIds(Everything(future, txns))
    }

    constructor (txns: seq<BalanceTxn>, future: seq<seq<BalanceTxn>>)
      requires DistinctIds(Everything(future, txns))
      ensures Valid() && this.txns == txns && this.future == future && calls == 0
    {
      this.txns, this.future, calls := txns, future, 0;
    }

    /** One list call: first whatever arrived, then the page. */
    method List(gte: Option<int>, cursor: Option<string>, limit: nat) returns (page: Page)
      requires Valid()
      modifies this
      ensures Valid() && calls == old(calls) + 1
      ensures txns == (if old(future) == [] then [] else old(future)[0]) + old(txns)
      ensures DistinctIds(txns)
      ensures page == PageOf(txns, gte, cursor, limit)
    {
      calls := calls + 1;
      if future != [] {
        txns, future := future[0] + txns, future[1..];
      }
      page := PageOf(txns, gte, cursor, limit);
      EverythingKeeps(future, txns);
    }
  }

  lemma {:induction false} EverythingKeeps(future: seq<seq<BalanceTxn>>, txns: seq<BalanceTxn>)
    requires DistinctIds(Everything(future, txns))
    ensures DistinctIds(txns)
    decreases |future|
  {
    if future != [] {
      EverythingKeeps(future[1..], future[0] + txns);
      var all := future[0] + txns;
      forall i, j | 0 <= i < j < |txns| ensures txns[i].id != txns[j].id {
        assert all[|future[0]| + i] == txns[i] && all[|future[0]| + j] == txns[j];
      }
    }
  }
}
