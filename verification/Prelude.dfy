/** Option, sums over finite maps, and runs of steps, shared by the other modules. */
module Prelude {

  datatype Option<+T> = None | Some(value: T)

  /** The sum of the values of `m`, in whatever order they are visited. */
  ghost function MapSum(m: map<string, int>): int
    decreases |m|
  {
    if m == map[] then
      0
    else
      var k :| k in m;
      m[k] + MapSum(m - {k})
  }

  /** The order does not matter: any key can be taken out first. */
  lemma {:induction false} MapSumPick(m: map<string, int>, k: string)
    requires k in m
    ensures MapSum(m) == m[k] + MapSum(m - {k})
    decreases |m|
  {
    var j :| j in m && MapSum(m) == m[j] + MapSum(m - {j});
    if j != k {
      MapSumPick(m - {j}, k);
      MapSumPick(m - {k}, j);
      assert m - {j} - {k} == m - {k} - {j};
    }
  }

  /** Adding a key that was not there adds its value. */
  lemma MapSumInsert(m: map<string, int>, k: string, v: int)
    requires k !in m
    ensures MapSum(m[k := v]) == MapSum(m) + v
  {
    MapSumPick(m[k := v], k);
    assert m[k := v] - {k} == m;
  }

  /** The state after a run of steps. */
  function Fold<S, A>(next: (S, A) -> S, s: S, steps: seq<A>): S {
    if steps == [] then s else next(Fold(next, s, steps[..|steps| - 1]), steps[|steps| - 1])
  }

  lemma {:induction false} FoldSplit<S, A>(next: (S, A) -> S, s: S, a: seq<A>, b: seq<A>)
    ensures Fold(next, s, a + b) == Fold(next, Fold(next, s, a), b)
    decreases |b|
  {
    if b == [] {
      assert a + b == a;
    } else {
      FoldSplit(next, s, a, b[..|b| - 1]);
      assert (a + b)[..|a + b| - 1] == a + b[..|b| - 1];
    }
  }

  lemma FoldOne<S, A>(next: (S, A) -> S, s: S, a: A)
    ensures Fold(next, s, [a]) == next(s, a)
  {
    assert [a][..0] == [];
    assert Fold(next, s, []) == s;
  }

  lemma FoldTwo<S, A>(next: (S, A) -> S, s: S, a: A, b: A)
    ensures Fold(next, s, [a, b]) == next(next(s, a), b)
  {
    FoldOne(next, s, a);
    assert [a, b][..1] == [a];
  }

  lemma FoldThree<S, A>(next: (S, A) -> S, s: S, a: A, b: A, c: A)
    ensures Fold(next, s, [a, b, c]) == next(next(next(s, a), b), c)
  {
    FoldTwo(next, s, a, b);
    assert [a, b, c][..2] == [a, b];
  }

  lemma FoldFive<S, A>(next: (S, A) -> S, s: S, a: A, b: A, c: A, d: A, e: A)
    ensures Fold(next, s, [a, b, c, d, e]) == next(next(next(next(next(s, a), b), c), d), e)
  {
    FoldThree(next, s, a, b, c);
    FoldTwo(next, Fold(next, s, [a, b, c]), d, e);
    FoldSplit(next, s, [a, b, c], [d, e]);
    assert [a, b, c] + [d, e] == [a, b, c, d, e];
  }

  lemma FoldSix<S, A>(next: (S, A) -> S, s: S, a: A, b: A, c: A, d: A, e: A, f: A)
    ensures Fold(next, s, [a, b, c, d, e, f]) == next(next(next(next(next(next(s, a), b), c), d), e), f)
  {
    FoldThree(next, s, a, b, c);
    FoldThree(next, Fold(next, s, [a, b, c]), d, e, f);
    FoldSplit(next, s, [a, b, c], [d, e, f]);
    assert [a, b, c] + [d, e, f] == [a, b, c, d, e, f];
  }
}
