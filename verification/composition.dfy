/**
  How nodes built by chaining `where` and `select` enumerate, stated on the
  nodes themselves.
 */
module Pipelines {
  import Operators
  import opened Enumerables

  /** Two chained `select` nodes enumerate like one node with the composed selector. */
  lemma SelectSelectNodes<T, U, V>(e: Enumerable<T>, f: Selector<T, U>, g: Selector<U, V>)
    ensures Iterate(Select(Select(e, f), g)) == Iterate(Select(e, (x, i) => g(f(x, i), i)))
  {
  }

  /**
    A `select` over a `where` node: output k is the selector applied to the
    k-th surviving upstream element, with index k.
   */
  lemma SelectOfWhereNodes<T, U>(e: Enumerable<T>, p: Predicate<T>, f: Selector<T, U>)
    ensures var s := Iterate(e);
            var idx := Operators.Positions(s, p);
            && |Iterate(Select(Where(e, p), f))| == |idx|
            && forall k :: 0 <= k < |idx| ==> Iterate(Select(Where(e, p), f))[k] == f(s[idx[k]], k)
  {
    Operators.SelectOfWhere(Iterate(e), p, f);
  }

  /** Two chained `where` nodes enumerate like one whose second test sees the survivor count. */
  lemma WhereWhereNodes<T>(e: Enumerable<T>, p: Predicate<T>, q: Predicate<T>)
    ensures Iterate(Where(Where(e, p), q)) == Iterate(Where(e, Operators.Chained(Iterate(e), p, q)))
  {
    Operators.WhereOfWhere(Iterate(e), p, q);
  }

  /** Every node `stream` builds collects back to the elements it was given. */
  lemma StreamToArray<T>(iter: Source<T>)
    ensures ToArray(Stream(iter)) == iter.elements
  {
  }
}
