/**
  The meaning of the two streaming operators, stated over finite sequences.

  Both operators hand their caller-supplied function the element together with
  its 0-based position in the upstream enumeration. The definitions below are
  written the way the generators run: the output for a source of length n+1 is
  the output for its first n elements, followed by what the (n+1)-th element
  contributes at upstream index n.
 */
module Operators {

  /** A filter predicate that also receives the element's upstream index. */
  type Predicate<!T> = (T, nat) -> bool

  /** A projection that also receives the element's upstream index. */
  type Selector<!T, U> = (T, nat) -> U

  /** `where`: the elements of `s` whose predicate holds at their own index. */
  function Where<T>(s: seq<T>, p: Predicate<T>): (r: seq<T>)
    ensures |r| <= |s|
    ensures forall x :: x in r ==> x in s
  {
    if |s| == 0 then []
    else
      var n := |s| - 1;
      Where(s[..n], p) + (if p(s[n], n) then [s[n]] else [])
  }

  /** `select`: one output per source element, computed from it and its index. */
  function Select<T, U>(s: seq<T>, f: Selector<T, U>): (r: seq<U>)
    ensures |r| == |s|
    ensures forall i :: 0 <= i < |s| ==> r[i] == f(s[i], i)
  {
    if |s| == 0 then []
    else
      var n := |s| - 1;
      Select(s[..n], f) + [f(s[n], n)]
  }

  /**
    Reference for `where`: the upstream positions at which the predicate holds,
    in increasing order, and no others.
   */
  function Positions<T>(s: seq<T>, p: Predicate<T>): (idx: seq<nat>)
    ensures forall k :: 0 <= k < |idx| ==> idx[k] < |s| && p(s[idx[k]], idx[k])
    ensures forall k, l :: 0 <= k < l < |idx| ==> idx[k] < idx[l]
    ensures forall j :: 0 <= j < |s| && p(s[j], j) ==> j in idx
  {
    if |s| == 0 then []
    else
      var n := |s| - 1;
      Positions(s[..n], p) + (if p(s[n], n) then [n] else [])
  }

  /** The predicate seen by the part of a source that starts `k` elements in. */
  function Shift<T>(p: Predicate<T>, k: nat): Predicate<T>
  {
    (v, i: nat) => p(v, i + k)
  }

  /** A predicate whose answer never depends on the index it is given. */
  ghost predicate IndexFree<T(!new)>(p: Predicate<T>)
  {
    forall v, i, j :: p(v, i) == p(v, j)
  }

  /**
    `where` emits exactly the elements at the positions where the predicate
    holds, in source order: output element k is the source element at the k-th
    such position.
   */
  lemma {:induction false} WhereSelectsPositions<T>(s: seq<T>, p: Predicate<T>)
    ensures |Where(s, p)| == |Positions(s, p)|
    ensures forall k :: 0 <= k < |Where(s, p)| ==> Where(s, p)[k] == s[Positions(s, p)[k]]
  {
    if |s| > 0 {
      var n := |s| - 1;
      WhereSelectsPositions(s[..n], p);
    }
  }

  /** Two predicates that agree on every (element, index) pair of `s` filter it alike. */
  lemma {:induction false} WhereCongruent<T>(s: seq<T>, p: Predicate<T>, q: Predicate<T>)
    requires forall j :: 0 <= j < |s| ==> p(s[j], j) == q(s[j], j)
    ensures Where(s, p) == Where(s, q)
  {
    if |s| > 0 {
      var n := |s| - 1;
      WhereCongruent(s[..n], p, q);
    }
  }

  /**
    The index keeps counting across a split of the source: the second part is
    filtered with indices offset by the length of the first.
   */
  lemma {:induction false} WhereAppend<T>(a: seq<T>, b: seq<T>, p: Predicate<T>)
    ensures Where(a + b, p) == Where(a, p) + Where(b, Shift(p, |a|))
  {
    if |b| == 0 {
      assert a + b == a;
    } else {
      var m := |b| - 1;
      WhereAppend(a, b[..m], p);
      assert (a + b)[..|a + b| - 1] == a + b[..m];
      assert (a + b)[|a + b| - 1] == b[m];
    }
  }

  /**
    Streaming: what `where` has emitted after pulling the first `n` upstream
    elements is a prefix of its full output, so output begins before the source
    is exhausted.
   */
  lemma {:induction false} WherePrefix<T>(s: seq<T>, p: Predicate<T>, n: nat)
    requires n <= |s|
    ensures Where(s[..n], p) <= Where(s, p)
  {
    WhereAppend(s[..n], s[n..], p);
    assert s[..n] + s[n..] == s;
  }

  /** `where` returns its whole source exactly when the predicate holds at every position. */
  lemma {:induction false} WhereKeepsAllIff<T>(s: seq<T>, p: Predicate<T>)
    ensures Where(s, p) == s <==> forall j :: 0 <= j < |s| ==> p(s[j], j)
  {
    if |s| > 0 {
      var n := |s| - 1;
      WhereKeepsAllIff(s[..n], p);
      assert s[..n] + [s[n]] == s;
      if Where(s, p) == s {
        assert p(s[n], n);
        assert Where(s[..n], p) == s[..n];
      }
    }
  }

  /** `where` returns nothing exactly when the predicate fails at every position. */
  lemma {:induction false} WhereDropsAllIff<T>(s: seq<T>, p: Predicate<T>)
    ensures Where(s, p) == [] <==> forall j :: 0 <= j < |s| ==> !p(s[j], j)
  {
    if |s| > 0 {
      var n := |s| - 1;
      WhereDropsAllIff(s[..n], p);
    }
  }

  /** With a predicate that ignores the index, filtering twice is filtering once. */
  lemma WhereIdempotent<T(!new)>(s: seq<T>, p: Predicate<T>)
    requires IndexFree(p)
    ensures Where(Where(s, p), p) == Where(s, p)
  {
    var r := Where(s, p);
    WhereSelectsPositions(s, p);
    var idx := Positions(s, p);
    forall k | 0 <= k < |r|
      ensures p(r[k], k)
    {
      assert r[k] == s[idx[k]];
      assert p(s[idx[k]], idx[k]);
    }
    WhereKeepsAllIff(r, p);
  }

  /**
    With an index-aware predicate, filtering twice is not filtering once: the
    second pass numbers the survivors afresh.
   */
  lemma WhereNotIdempotentWithIndex()
    ensures var p: Predicate<int> := (v, i) => i == 1;
            Where(Where([10, 20, 30], p), p) != Where([10, 20, 30], p)
  {
  }

  /**
    The predicate a single `where` needs to do the work of two chained ones:
    the first predicate at the upstream index, and the second at the number of
    earlier elements the first let through.
   */
  function Chained<T>(s: seq<T>, p: Predicate<T>, q: Predicate<T>): Predicate<T>
  {
    (v, j: nat) => p(v, j) && q(v, |Where(s[..if j <= |s| then j else |s|], p)|)
  }

  /**
    Chained filters: the downstream predicate's index counts only the elements
    the upstream filter emitted, not the elements it pulled.
   */
  lemma {:induction false} WhereOfWhere<T>(s: seq<T>, p: Predicate<T>, q: Predicate<T>)
    ensures Where(Where(s, p), q) == Where(s, Chained(s, p, q))
  {
    if |s| > 0 {
      var n := |s| - 1;
      var s' := s[..n];
      var x := s[n];
      var c := Chained(s, p, q);
      var w := Where(s', p);
      WhereOfWhere(s', p, q);
      forall j | 0 <= j < |s'|
        ensures Chained(s', p, q)(s'[j], j) == c(s'[j], j)
      {
        assert s'[..j] == s[..j];
      }
      WhereCongruent(s', Chained(s', p, q), c);
      assert Where(w, q) == Where(s', c);
      assert c(x, n) == (p(x, n) && q(x, |w|));
      assert Where(s, c) == Where(s', c) + (if c(x, n) then [x] else []);
      if p(x, n) {
        assert Where(s, p) == w + [x];
        WhereStep(w + [x], |w|, q);
        assert (w + [x])[..|w| + 1] == w + [x];
      } else {
        assert Where(s, p) == w;
      }
    }
  }

  /** Pulling element k adds it to the output exactly when the predicate holds at index k. */
  lemma WhereStep<T>(s: seq<T>, k: nat, p: Predicate<T>)
    requires k < |s|
    ensures Where(s[..k + 1], p) == Where(s[..k], p) + (if p(s[k], k) then [s[k]] else [])
  {
    assert s[..k + 1][..k] == s[..k];
  }

  /** Projecting with a selector that returns its element gives back the source. */
  lemma SelectIdentity<T>(s: seq<T>)
    ensures Select(s, (v, i) => v) == s
  {
  }

  /** Two projections compose into one, both seeing the same upstream index. */
  lemma SelectSelect<T, U, V>(s: seq<T>, f: Selector<T, U>, g: Selector<U, V>)
    ensures Select(Select(s, f), g) == Select(s, (x, i) => g(f(x, i), i))
  {
  }

  /**
    Projecting a filtered source: output k is the selector applied to the
    source element at the k-th surviving position, with index k (its position
    in the filtered stream), not its upstream position.
   */
  lemma SelectOfWhere<T, U>(s: seq<T>, p: Predicate<T>, f: Selector<T, U>)
    ensures |Select(Where(s, p), f)| == |Positions(s, p)|
    ensures forall k :: 0 <= k < |Positions(s, p)| ==>
              Select(Where(s, p), f)[k] == f(s[Positions(s, p)[k]], k)
  {
  }
}
