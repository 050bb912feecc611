/** Counting by matching: the finite-set facts behind every "at most" and "exactly". */
module Cardinality {

  ghost predicate Injective<A, B>(f: map<A, B>) {
    forall a, b :: a in f && b in f && f[a] == f[b] ==> a == b
  }

  /** An injective map has no more keys than its target has elements. */
  lemma {:induction false} InjectionBound<A, B>(f: map<A, B>, target: set<B>)
    requires Injective(f)
    requires forall a :: a in f ==> f[a] in target
    ensures |f.Keys| <= |target|
    decreases |f.Keys|
  {
    if a :| a in f {
      var g := map x | x in f && x != a :: f[x];
      assert g.Keys == f.Keys - {a};
      InjectionBound(g, target - {f[a]});
    }
  }

  ghost predicate Reaches<A, B>(f: map<A, B>, b: B) {
    exists a :: a in f && f[a] == b
  }

  /** `f` takes its keys one-to-one onto `target`. */
  ghost predicate Bijection<A(!new), B(!new)>(f: map<A, B>, target: set<B>) {
    && Injective(f)
    && (forall a :: a in f ==> f[a] in target)
    && (forall b {:trigger Reaches(f, b)} :: b in target ==> Reaches(f, b))
  }

  /** A map that is one-to-one and onto matches two sets of the same size. */
  lemma BijectionSize<A(!new), B(!new)>(f: map<A, B>, target: set<B>)
    requires Bijection(f, target)
    ensures |f.Keys| == |target|
  {
    InjectionBound(f, target);
    forall b | b in target ensures Reaches(f, b) {}
    var back: map<B, A> := map b | b in target :: Preimage(f, b);
    assert back.Keys == target;
    InjectionBound(back, f.Keys);
  }

  ghost function Preimage<A, B>(f: map<A, B>, b: B): (a: A)
    requires Reaches(f, b)
    ensures a in f && f[a] == b
  {
    var a :| a in f && f[a] == b;
    a
  }

  /** The whole numbers from `lo` up to, and not including, `hi`. */
  function Span(lo: int, hi: int): (span: set<int>)
    ensures forall i :: i in span <==> lo <= i < hi
    ensures |span| == if lo <= hi then hi - lo else 0
    decreases hi - lo
  {
    if lo >= hi then {} else Span(lo, hi - 1) + {hi - 1}
  }

  /** All pairs. */
  function Grid<A(!new), B(!new)>(rows: set<A>, columns: set<B>): set<(A, B)> {
    set a, b | a in rows && b in columns :: (a, b)
  }

  /** One row of the grid. */
  ghost function Edge<A(!new), B(!new)>(a: A, columns: set<B>): set<(A, B)>
  {
    set b | b in columns :: (a, b)
  }

  lemma EdgeSize<A(!new), B(!new)>(a: A, columns: set<B>)
    ensures |Edge(a, columns)| == |columns|
  {
    var row := map b | b in columns :: (a, b);
    forall e | e in Edge(a, columns) ensures Reaches(row, e) {
      assert row[e.1] == e;
    }
    assert row.Keys == columns;
    BijectionSize(row, Edge(a, columns));
  }

  lemma GridSplit<A(!new), B(!new)>(rows: set<A>, columns: set<B>, a: A)
    requires a in rows
    ensures |Grid(rows, columns)| == |Grid(rows - {a}, columns)| + |Edge(a, columns)|
  {
    var rest, edge := Grid(rows - {a}, columns), Edge(a, columns);
    assert Grid(rows, columns) == rest + edge;
    assert rest !! edge;
  }

  lemma {:induction false} GridSize<A(!new), B(!new)>(rows: set<A>, columns: set<B>)
    ensures |Grid(rows, columns)| == |rows| * |columns|
    decreases |rows|
  {
    if a :| a in rows {
      GridSize(rows - {a}, columns);
      EdgeSize(a, columns);
      GridSplit(rows, columns, a);
      assert |rows| == |rows - {a}| + 1;
    } else {
      assert Grid(rows, columns) == {};
    }
  }
}
