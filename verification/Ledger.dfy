/**
 The double-entry ledger: two append-only tables, the unique constraint on
 (kind, reference), the balance trigger, and the sums the balance views report.
 */
module Ledger {
  datatype Account = StripeReceivable | Revenue | Fees | Refunds | Disputes

  datatype EntryKind = Charge | Refund | Fee | Dispute | Reversal

  datatype Posting = Posting(account: Account, amount: int)

  datatype Key = Key(kind: EntryKind, reference: string)

  /** A row of ledger_entries; its position in the table stands for its id. */
  datatype EntryRow = EntryRow(key: Key, currency: string)

  /** A row of ledger_postings. */
  datatype PostingRow = PostingRow(entryId: nat, account: Account, amount: int)

  datatype Tables = Tables(entries: seq<EntryRow>, postings: seq<PostingRow>)

  /** One journal entry together with its postings, as the join of the two tables shows it. */
  datatype Entry = Entry(currency: string, postings: seq<Posting>)

  /** The ledger as a map from the unique key to the entry. */
  type Book = map<Key, Entry>

  /** What posting does: insert, find the key taken, or throw (nothing is written). */
  datatype PostResult = Posted | Duplicate | Raised

  const CURRENCY_LENGTH := 3

  // ---------------------------------------------------------------- tables

  function Imbalance(ps: seq<Posting>): int {
    if ps == [] then 0 else Imbalance(ps[..|ps| - 1]) + ps[|ps| - 1].amount
  }

  function PostingsOf(rows: seq<PostingRow>, id: nat): seq<Posting> {
    if rows == [] then
      []
    else
      var last := rows[|rows| - 1];
      PostingsOf(rows[..|rows| - 1], id)
      + if last.entryId == id then [Posting(last.account, last.amount)] else []
  }

  /** The rows a multi-row insert writes for an entry. */
  function RowsFor(id: nat, ps: seq<Posting>): seq<PostingRow> {
    seq(|ps|, i requires 0 <= i < |ps| => PostingRow(id, ps[i].account, ps[i].amount))
  }

  predicate HasKey(rows: seq<EntryRow>, k: Key) {
    exists i :: 0 <= i < |rows| && rows[i].key == k
  }

  predicate UniqueKeys(rows: seq<EntryRow>) {
    forall i, j :: 0 <= i < j < |rows| ==> rows[i].key != rows[j].key
  }

  /** Every posting refers to an entry (the foreign key). */
  predicate Linked(t: Tables) {
    forall i :: 0 <= i < |t.postings| ==> t.postings[i].entryId < |t.entries|
  }

  /** What the balance trigger checks at commit, and that no entry is empty. */
  predicate Balanced(t: Tables) {
    forall id: nat :: id < |t.entries| ==>
      PostingsOf(t.postings, id) != [] && Imbalance(PostingsOf(t.postings, id)) == 0
  }

  predicate Integrity(t: Tables) {
    UniqueKeys(t.entries) && Linked(t) && Balanced(t)
  }

  const EMPTY := Tables([], [])

  lemma IntegrityLinks(t: Tables)
    requires Integrity(t)
    ensures Linked(t)
  {
  }

  /** The insert of an entry and its postings, idempotent on the key. */
  function Post(t: Tables, k: Key, e: Entry): (PostResult, Tables) {
    if e.postings == [] || Imbalance(e.postings) != 0 || |e.currency| != CURRENCY_LENGTH then
      (Raised, t)
    else if HasKey(t.entries, k) then
      (Duplicate, t)
    else
      (Posted, Tables(t.entries + [EntryRow(k, e.currency)],
                      t.postings + RowsFor(|t.entries|, e.postings)))
  }

  /** The same operation on the keyed view. */
  function PostBook(b: Book, k: Key, e: Entry): (PostResult, Book) {
    if e.postings == [] || Imbalance(e.postings) != 0 || |e.currency| != CURRENCY_LENGTH then
      (Raised, b)
    else if k in b then
      (Duplicate, b)
    else
      (Posted, b[k := e])
  }

  /** The join of the two tables, keyed by (kind, reference). */
  function BookOf(t: Tables): Book
    decreases |t.entries|
  {
    if t.entries == [] then
      map[]
    else
      var n := |t.entries| - 1;
      BookOf(Tables(t.entries[..n], t.postings))
      [t.entries[n].key := Entry(t.entries[n].currency, PostingsOf(t.postings, n))]
  }

  lemma {:induction false} PostingsOfAppend(rows: seq<PostingRow>, extra: seq<PostingRow>, id: nat)
    ensures PostingsOf(rows + extra, id) == PostingsOf(rows, id) + PostingsOf(extra, id)
    decreases |extra|
  {
    if extra == [] {
      assert rows + extra == rows;
    } else {
      var n := |extra| - 1;
      PostingsOfAppend(rows, extra[..n], id);
      assert (rows + extra)[..|rows + extra| - 1] == rows + extra[..n];
    }
  }

  lemma {:induction false} PostingsOfRowsFor(id: nat, ps: seq<Posting>, other: nat)
    ensures PostingsOf(RowsFor(id, ps), other) == if other == id then ps else []
    decreases |ps|
  {
    if ps != [] {
      var n := |ps| - 1;
      PostingsOfRowsFor(id, ps[..n], other);
      assert RowsFor(id, ps)[..n] == RowsFor(id, ps[..n]);
      assert ps == ps[..n] + [ps[n]];
    }
  }

  lemma {:induction false} NoPostingsAbove(rows: seq<PostingRow>, id: nat)
    requires forall i :: 0 <= i < |rows| ==> rows[i].entryId < id
    ensures PostingsOf(rows, id) == []
    decreases |rows|
  {
    if rows != [] {
      NoPostingsAbove(rows[..|rows| - 1], id);
    }
  }

  /** What a successful post leaves for each entry id. */
  lemma PostedPostings(t: Tables, k: Key, e: Entry, id: nat)
    requires Linked(t) && Post(t, k, e).0 == Posted
    ensures PostingsOf(Post(t, k, e).1.postings, id)
         == if id == |t.entries| then e.postings else PostingsOf(t.postings, id)
  {
    hide PostingsOf, HasKey, Imbalance, RowsFor;
    var rows := RowsFor(|t.entries|, e.postings);
    PostingsOfAppend(t.postings, rows, id);
    PostingsOfRowsFor(|t.entries|, e.postings, id);
    if id == |t.entries| {
      NoPostingsAbove(t.postings, id);
    }
  }

  /** Posting keeps uniqueness, the foreign key and the balance of every entry. */
  lemma PostKeepsIntegrity(t: Tables, k: Key, e: Entry)
    requires Integrity(t)
    ensures Integrity(Post(t, k, e).1)
  {
    if Post(t, k, e).0 == Posted {
      var t' := Post(t, k, e).1;
      forall id: nat | id < |t'.entries|
        ensures PostingsOf(t'.postings, id) != [] && Imbalance(PostingsOf(t'.postings, id)) == 0
      {
        PostedPostings(t, k, e, id);
      }
    }
  }

  lemma {:induction false} BookFrame(entries: seq<EntryRow>, p: seq<PostingRow>, q: seq<PostingRow>)
    requires forall id: nat :: id < |entries| ==> PostingsOf(p, id) == PostingsOf(q, id)
    ensures BookOf(Tables(entries, p)) == BookOf(Tables(entries, q))
    decreases |entries|
  {
    if entries != [] {
      BookFrame(entries[..|entries| - 1], p, q);
    }
  }

  lemma {:induction false} BookKeys(t: Tables, k: Key)
    ensures k in BookOf(t) <==> HasKey(t.entries, k)
    decreases |t.entries|
  {
    if t.entries != [] {
      var n := |t.entries| - 1;
      BookKeys(Tables(t.entries[..n], t.postings), k);
      assert t.entries == t.entries[..n] + [t.entries[n]];
    }
  }

  /** An entry read through the keyed view is the row with that key and its own postings. */
  lemma {:induction false} BookRow(t: Tables, id: nat)
    requires UniqueKeys(t.entries) && id < |t.entries|
    ensures t.entries[id].key in BookOf(t)
    ensures BookOf(t)[t.entries[id].key] == Entry(t.entries[id].currency, PostingsOf(t.postings, id))
    decreases |t.entries|
  {
    var n := |t.entries| - 1;
    if id < n {
      BookRow(Tables(t.entries[..n], t.postings), id);
      assert t.entries[id].key != t.entries[n].key;
    }
  }

  /** The two tables refine the keyed view: posting to them is posting to the map. */
  lemma PostRefines(t: Tables, k: Key, e: Entry)
    requires Linked(t)
    ensures Post(t, k, e).0 == PostBook(BookOf(t), k, e).0
    ensures BookOf(Post(t, k, e).1) == PostBook(BookOf(t), k, e).1
  {
    BookKeys(t, k);
    if Post(t, k, e).0 == Posted {
      var t' := Post(t, k, e).1;
      forall id: nat | id < |t.entries|
        ensures PostingsOf(t'.postings, id) == PostingsOf(t.postings, id)
      {
        PostedPostings(t, k, e, id);
      }
      PostedPostings(t, k, e, |t.entries|);
      BookFrame(t.entries, t'.postings, t.postings);
      assert t'.entries[..|t.entries|] == t.entries;
    }
  }

  /** When a post throws, finds its key, or inserts, and the rows it inserts. */
  lemma PostedIff(t: Tables, k: Key, e: Entry)
    ensures var (r, t') := Post(t, k, e);
            && (r == Raised <==> e.postings == [] || Imbalance(e.postings) != 0 || |e.currency| != 3)
            && (r == Duplicate <==> r != Raised && exists i :: 0 <= i < |t.entries| && t.entries[i].key == k)
            && (r != Posted ==> t' == t)
            && (r == Posted ==>
                  && |t'.entries| == |t.entries| + 1 && t.entries <= t'.entries
                  && t'.entries[|t.entries|] == EntryRow(k, e.currency)
                  && |t'.postings| == |t.postings| + |e.postings| && t.postings <= t'.postings
                  && forall i :: 0 <= i < |e.postings| ==>
                       t'.postings[|t.postings| + i]
                       == PostingRow(|t.entries|, e.postings[i].account, e.postings[i].amount))
  {
    hide Imbalance;
  }

  /** Redelivery: the same key posts once, whatever the second entry says. */
  lemma PostOnce(t: Tables, k: Key, e: Entry, again: Entry)
    requires Post(t, k, e).0 != Raised
    ensures Post(Post(t, k, e).1, k, again).1 == Post(t, k, e).1
    ensures Post(Post(t, k, e).1, k, again).0 != Posted
  {
    var t' := Post(t, k, e).1;
    if Post(t, k, e).0 == Posted {
      assert t'.entries[|t.entries|].key == k;
    }
  }

  // -------------------------------------------------------------- balances

  function AccountBalance(rows: seq<PostingRow>, a: Account): int {
    if rows == [] then
      0
    else
      AccountBalance(rows[..|rows| - 1], a)
      + if rows[|rows| - 1].account == a then rows[|rows| - 1].amount else 0
  }

  function CurrencyOf(t: Tables, p: PostingRow): string
    requires p.entryId < |t.entries|
  {
    t.entries[p.entryId].currency
  }

  function Last(t: Tables): PostingRow
    requires t.postings != []
  {
    t.postings[|t.postings| - 1]
  }

  /** The sum of one (account, currency) group of the postings joined with their entries. */
  function GroupBalance(t: Tables, a: Account, c: string): int
    requires Linked(t)
    decreases |t.postings|
  {
    if t.postings == [] then
      0
    else
      var n := |t.postings| - 1;
      var last := t.postings[n];
      GroupBalance(Tables(t.entries, t.postings[..n]), a, c)
      + if last.account == a && CurrencyOf(t, last) == c then last.amount else 0
  }

  /** The (account, currency) pairs that occur, one report row each. */
  function Groups(t: Tables): set<(Account, string)>
    requires Linked(t)
  {
    set i | 0 <= i < |t.postings| :: (t.postings[i].account, CurrencyOf(t, t.postings[i]))
  }

  /** The admin ledger view. */
  function LedgerBalances(t: Tables): map<(Account, string), int>
    requires Linked(t)
  {
    map g | g in Groups(t) :: GroupBalance(t, g.0, g.1)
  }

  /** A report row's balance; a group that does not occur counts as zero. */
  function Reported(report: map<(Account, string), int>, a: Account, c: string): int {
    if (a, c) in report then report[(a, c)] else 0
  }

  function AccountSum(ps: seq<Posting>, a: Account): int {
    if ps == [] then
      0
    else
      AccountSum(ps[..|ps| - 1], a) + if ps[|ps| - 1].account == a then ps[|ps| - 1].amount else 0
  }

  /** The same group, summed entry by entry over the first `n` entries. */
  ghost function ByEntry(t: Tables, a: Account, c: string, n: nat): int
    requires n <= |t.entries|
  {
    if n == 0 then
      0
    else
      ByEntry(t, a, c, n - 1)
      + if t.entries[n - 1].currency == c then AccountSum(PostingsOf(t.postings, n - 1), a) else 0
  }

  lemma {:induction false} ByEntryStep(t: Tables, a: Account, c: string, n: nat)
    requires n <= |t.entries| && Linked(t) && t.postings != []
    ensures ByEntry(t, a, c, n)
         == ByEntry(Tables(t.entries, t.postings[..|t.postings| - 1]), a, c, n)
            + if Last(t).entryId < n && Last(t).account == a && CurrencyOf(t, Last(t)) == c
              then Last(t).amount else 0
  {
    if n > 0 {
      ByEntryStep(t, a, c, n - 1);
      var last := Last(t);
      var before := PostingsOf(t.postings[..|t.postings| - 1], n - 1);
      if last.entryId == n - 1 {
        var all := before + [Posting(last.account, last.amount)];
        assert PostingsOf(t.postings, n - 1) == all && all[..|all| - 1] == before;
      } else {
        assert PostingsOf(t.postings, n - 1) == before;
      }
    }
  }

  lemma {:induction false} ByEntryEmpty(t: Tables, a: Account, c: string, n: nat)
    requires n <= |t.entries| && t.postings == []
    ensures ByEntry(t, a, c, n) == 0
  {
    if n > 0 {
      ByEntryEmpty(t, a, c, n - 1);
    }
  }

  /** The exchange of sums: grouping the postings directly, or entry by entry, agree. */
  lemma {:induction false} RegroupByEntry(t: Tables, a: Account, c: string)
    requires Linked(t)
    ensures GroupBalance(t, a, c) == ByEntry(t, a, c, |t.entries|)
    decreases |t.postings|
  {
    if t.postings == [] {
      ByEntryEmpty(t, a, c, |t.entries|);
    } else {
      RegroupByEntry(Tables(t.entries, t.postings[..|t.postings| - 1]), a, c);
      ByEntryStep(t, a, c, |t.entries|);
    }
  }

  lemma {:induction false} AccountsSplitEntry(ps: seq<Posting>)
    ensures AccountSum(ps, StripeReceivable) + AccountSum(ps, Revenue) + AccountSum(ps, Fees)
            + AccountSum(ps, Refunds) + AccountSum(ps, Disputes) == Imbalance(ps)
    decreases |ps|
  {
    if ps != [] {
      AccountsSplitEntry(ps[..|ps| - 1]);
    }
  }

  lemma {:induction false} EntriesCancel(t: Tables, c: string, n: nat)
    requires n <= |t.entries| && Balanced(t)
    ensures ByEntry(t, StripeReceivable, c, n) + ByEntry(t, Revenue, c, n) + ByEntry(t, Fees, c, n)
            + ByEntry(t, Refunds, c, n) + ByEntry(t, Disputes, c, n) == 0
  {
    if n > 0 {
      EntriesCancel(t, c, n - 1);
      AccountsSplitEntry(PostingsOf(t.postings, n - 1));
    }
  }

  lemma {:induction false} AbsentGroupIsZero(t: Tables, a: Account, c: string)
    requires Linked(t) && (a, c) !in Groups(t)
    ensures GroupBalance(t, a, c) == 0
    decreases |t.postings|
  {
    if t.postings != [] {
      var n := |t.postings| - 1;
      var t' := Tables(t.entries, t.postings[..n]);
      assert (t.postings[n].account, CurrencyOf(t, t.postings[n])) in Groups(t);
      forall g | g in Groups(t') ensures g in Groups(t) {
        var i :| 0 <= i < n && g == (t'.postings[i].account, CurrencyOf(t', t'.postings[i]));
        assert t.postings[i] == t'.postings[i];
      }
      AbsentGroupIsZero(t', a, c);
    }
  }

  lemma ReportedIsGroup(t: Tables, a: Account, c: string)
    requires Linked(t)
    ensures Reported(LedgerBalances(t), a, c) == GroupBalance(t, a, c)
  {
    if (a, c) !in Groups(t) {
      AbsentGroupIsZero(t, a, c);
    }
  }

  /** Conservation: when every entry balances, so does the report, currency by currency. */
  lemma ReportConserves(t: Tables, c: string)
    requires Integrity(t)
    ensures var r := LedgerBalances(t);
            Reported(r, StripeReceivable, c) + Reported(r, Revenue, c) + Reported(r, Fees, c)
            + Reported(r, Refunds, c) + Reported(r, Disputes, c) == 0
  {
    ReportedIsGroup(t, StripeReceivable, c);
    ReportedIsGroup(t, Revenue, c);
    ReportedIsGroup(t, Fees, c);
    ReportedIsGroup(t, Refunds, c);
    ReportedIsGroup(t, Disputes, c);
    RegroupByEntry(t, StripeReceivable, c);
    RegroupByEntry(t, Revenue, c);
    RegroupByEntry(t, Fees, c);
    RegroupByEntry(t, Refunds, c);
    RegroupByEntry(t, Disputes, c);
    EntriesCancel(t, c, |t.entries|);
  }

  predicate Distinct(cs: seq<string>) {
    forall i, j :: 0 <= i < j < |cs| ==> cs[i] != cs[j]
  }

  /** One account's report rows added up over a list of currencies. */
  function ReportTotal(t: Tables, a: Account, cs: seq<string>): int
    requires Linked(t)
  {
    if cs == [] then
      0
    else
      ReportTotal(t, a, cs[..|cs| - 1]) + Reported(LedgerBalances(t), a, cs[|cs| - 1])
  }

  ghost function GroupTotal(t: Tables, a: Account, cs: seq<string>): int
    requires Linked(t)
  {
    if cs == [] then 0 else GroupTotal(t, a, cs[..|cs| - 1]) + GroupBalance(t, a, cs[|cs| - 1])
  }

  lemma {:induction false} ReportTotalIsGroupTotal(t: Tables, a: Account, cs: seq<string>)
    requires Linked(t)
    ensures ReportTotal(t, a, cs) == GroupTotal(t, a, cs)
    decreases |cs|
  {
    if cs != [] {
      ReportTotalIsGroupTotal(t, a, cs[..|cs| - 1]);
      ReportedIsGroup(t, a, cs[|cs| - 1]);
    }
  }

  lemma {:induction false} GroupTotalStep(t: Tables, a: Account, cs: seq<string>)
    requires Linked(t) && t.postings != [] && Distinct(cs)
    ensures GroupTotal(t, a, cs)
         == GroupTotal(Tables(t.entries, t.postings[..|t.postings| - 1]), a, cs)
            + if Last(t).account == a && CurrencyOf(t, Last(t)) in cs then Last(t).amount else 0
    decreases |cs|
  {
    if cs != [] {
      GroupTotalStep(t, a, cs[..|cs| - 1]);
    }
  }

  lemma {:induction false} GroupTotalEmpty(t: Tables, a: Account, cs: seq<string>)
    requires t.postings == []
    ensures GroupTotal(t, a, cs) == 0
    decreases |cs|
  {
    if cs != [] {
      GroupTotalEmpty(t, a, cs[..|cs| - 1]);
    }
  }

  lemma {:induction false} GroupTotalIsBalance(t: Tables, a: Account, cs: seq<string>)
    requires Linked(t) && Distinct(cs)
    requires forall i :: 0 <= i < |t.postings| ==> CurrencyOf(t, t.postings[i]) in cs
    ensures GroupTotal(t, a, cs) == AccountBalance(t.postings, a)
    decreases |t.postings|
  {
    if t.postings == [] {
      GroupTotalEmpty(t, a, cs);
    } else {
      GroupTotalStep(t, a, cs);
      GroupTotalIsBalance(Tables(t.entries, t.postings[..|t.postings| - 1]), a, cs);
    }
  }

  /** An account's balance is the sum of its report rows over all currencies in use. */
  lemma AccountBalanceIsReportTotal(t: Tables, a: Account, cs: seq<string>)
    requires Linked(t) && Distinct(cs)
    requires forall g :: g in Groups(t) ==> g.1 in cs
    ensures AccountBalance(t.postings, a) == ReportTotal(t, a, cs)
  {
    forall i | 0 <= i < |t.postings| ensures CurrencyOf(t, t.postings[i]) in cs {
      assert (t.postings[i].account, CurrencyOf(t, t.postings[i])) in Groups(t);
    }
    ReportTotalIsGroupTotal(t, a, cs);
    GroupTotalIsBalance(t, a, cs);
  }

  lemma {:induction false} RowsForBalance(rows: seq<PostingRow>, id: nat, ps: seq<Posting>, a: Account)
    ensures AccountBalance(rows + RowsFor(id, ps), a) == AccountBalance(rows, a) + AccountSum(ps, a)
    decreases |ps|
  {
    var all := rows + RowsFor(id, ps);
    if ps == [] {
      assert all == rows;
    } else {
      var n := |ps| - 1;
      RowsForBalance(rows, id, ps[..n], a);
      assert all[..|all| - 1] == rows + RowsFor(id, ps[..n]);
    }
  }

  /** Posting moves an account's balance by what the entry says of it, once. */
  lemma PostMovesBalance(t: Tables, k: Key, e: Entry, a: Account)
    ensures AccountBalance(Post(t, k, e).1.postings, a)
         == AccountBalance(t.postings, a) + if Post(t, k, e).0 == Posted then AccountSum(e.postings, a) else 0
  {
    RowsForBalance(t.postings, |t.entries|, e.postings, a);
  }

  // ---------------------------------------------------------- entry shapes

  function ExpenseAccount(k: EntryKind): Account {
    match k
    case Refund => Refunds
    case Dispute => Disputes
    case Fee => Fees
    case _ => StripeReceivable
  }

  /** The postings the application writes for an entry of each kind. */
  function Template(k: EntryKind, amount: int): seq<Posting> {
    if k == Charge then
      [Posting(StripeReceivable, amount), Posting(Revenue, -amount)]
    else
      [Posting(ExpenseAccount(k), amount), Posting(StripeReceivable, -amount)]
  }

  /** A template never trips the balance rule. */
  lemma TemplateBalances(k: EntryKind, amount: int)
    ensures Template(k, amount) != [] && Imbalance(Template(k, amount)) == 0
  {
    var ps := Template(k, amount);
    assert Imbalance(ps[..1]) == ps[0].amount;
  }

  function AmountOf(ps: seq<Posting>): int {
    if ps == [] then 0 else ps[0].amount
  }

  /** Only charges, refunds, disputes and fees are posted, each in its own shape. */
  predicate Shaped(t: Tables) {
    forall id: nat :: id < |t.entries| ==>
      t.entries[id].key.kind != Reversal
      && PostingsOf(t.postings, id)
         == Template(t.entries[id].key.kind, AmountOf(PostingsOf(t.postings, id)))
  }

  lemma PostKeepsShaped(t: Tables, k: Key, currency: string, amount: int)
    requires Linked(t) && Shaped(t) && k.kind != Reversal
    ensures Shaped(Post(t, k, Entry(currency, Template(k.kind, amount))).1)
  {
    var e := Entry(currency, Template(k.kind, amount));
    if Post(t, k, e).0 == Posted {
      var t' := Post(t, k, e).1;
      forall id: nat | id < |t'.entries|
        ensures t'.entries[id].key.kind != Reversal
        ensures PostingsOf(t'.postings, id)
             == Template(t'.entries[id].key.kind, AmountOf(PostingsOf(t'.postings, id)))
      {
        PostedPostings(t, k, e, id);
      }
    }
  }

  /** The gross of all entries of one kind and currency among the first `n`. */
  ghost function Gross(t: Tables, k: EntryKind, c: string, n: nat): int
    requires n <= |t.entries|
  {
    if n == 0 then
      0
    else
      Gross(t, k, c, n - 1)
      + if t.entries[n - 1].key.kind == k && t.entries[n - 1].currency == c
        then AmountOf(PostingsOf(t.postings, n - 1)) else 0
  }

  lemma TemplateSums(k: EntryKind, amount: int, a: Account)
    requires k != Reversal
    ensures AccountSum(Template(k, amount), a)
         == if a == StripeReceivable then (if k == Charge then amount else -amount)
            else if a == Revenue then (if k == Charge then -amount else 0)
            else if a == ExpenseAccount(k) then amount
            else 0
  {
    var ps := Template(k, amount);
    assert ps[..1] == [ps[0]] && ps[..1][..0] == [];
    assert AccountSum(ps[..1], a) == if ps[0].account == a then ps[0].amount else 0;
  }

  lemma {:induction false} GrossByEntry(t: Tables, c: string, n: nat)
    requires n <= |t.entries| && Shaped(t)
    ensures ByEntry(t, StripeReceivable, c, n)
         == Gross(t, Charge, c, n) - Gross(t, Refund, c, n) - Gross(t, Dispute, c, n) - Gross(t, Fee, c, n)
    ensures ByEntry(t, Revenue, c, n) == -Gross(t, Charge, c, n)
    ensures ByEntry(t, Fees, c, n) == Gross(t, Fee, c, n)
    ensures ByEntry(t, Refunds, c, n) == Gross(t, Refund, c, n)
    ensures ByEntry(t, Disputes, c, n) == Gross(t, Dispute, c, n)
  {
    if n > 0 {
      GrossByEntry(t, c, n - 1);
      var k := t.entries[n - 1].key.kind;
      var amount := AmountOf(PostingsOf(t.postings, n - 1));
      forall a: Account { TemplateSums(k, amount, a); }
    }
  }

  /** Per currency: the receivable is charges less refunds, disputes and fees; revenue is charges. */
  lemma ReportByKind(t: Tables, c: string)
    requires Integrity(t) && Shaped(t)
    ensures var r, n := LedgerBalances(t), |t.entries|;
            && Reported(r, StripeReceivable, c)
               == Gross(t, Charge, c, n) - Gross(t, Refund, c, n)
                  - Gross(t, Dispute, c, n) - Gross(t, Fee, c, n)
            && Reported(r, Revenue, c) == -Gross(t, Charge, c, n)
            && Reported(r, Fees, c) == Gross(t, Fee, c, n)
            && Reported(r, Refunds, c) == Gross(t, Refund, c, n)
            && Reported(r, Disputes, c) == Gross(t, Dispute, c, n)
  {
    forall a: Account ensures Reported(LedgerBalances(t), a, c) == ByEntry(t, a, c, |t.entries|) {
      ReportedIsGroup(t, a, c);
      RegroupByEntry(t, a, c);
    }
    GrossByEntry(t, c, |t.entries|);
  }

  // ----------------------------------------------------------- the handle

  /** The ledger tables behind a database handle. */
  class Store {
    var entries: seq<EntryRow>
    var postings: seq<PostingRow>

    function Contents(): Tables
      reads this
    {
      Tables(entries, postings)
    }

    constructor ()
      ensures Contents() == EMPTY
    {
      entries, postings := [], [];
    }

    method PostEntry(k: Key, currency: string, ps: seq<Posting>) returns (r: PostResult)
      modifies this
      ensures (r, Contents()) == Post(old(Contents()), k, Entry(currency, ps))
    {
      if ps == [] || Imbalance(ps) != 0 {
        return Raised;
      }
      if |currency| != CURRENCY_LENGTH {
        return Raised;
      }
      if HasKey(entries, k) {
        return Duplicate;
      }
      var id := |entries|;
      entries := entries + [EntryRow(k, currency)];
      postings := postings + RowsFor(id, ps);
      r := Posted;
    }

    method PostCharge(intent: string, amount: int, currency: string) returns (r: PostResult)
      modifies this
      ensures (r, Contents())
           == Post(old(Contents()), Key(Charge, intent), Entry(currency, Template(Charge, amount)))
    {
      r := PostEntry(Key(Charge, intent), currency,
                     [Posting(StripeReceivable, amount), Posting(Revenue, -amount)]);
    }

    /** A refund or a dispute: money going back out. */
    method ApplyLedgerEvent(kind: EntryKind, reference: string, amount: int, currency: string)
      returns (r: PostResult)
      requires kind == Refund || kind == Dispute
      modifies this
      ensures (r, Contents())
           == Post(old(Contents()), Key(kind, reference), Entry(currency, Template(kind, amount)))
    {
      r := PostEntry(Key(kind, reference), currency,
                     [Posting(ExpenseAccount(kind), amount), Posting(StripeReceivable, -amount)]);
    }
  }
}
