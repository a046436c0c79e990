/**
  The lazy pipeline of src/enumerable.ts: the `stream` entry point, the four
  node kinds, and the terminal operations `toArray` and `count`.

  A node is an immutable value. Enumerating it (`Iterate`, run step by step by
  `Enumerate`) produces one fresh pass over its source; nothing is stored
  between passes.
 */
module Enumerables {
  import opened Wrappers
  import Operators

  type Predicate<!T> = Operators.Predicate<T>
  type Selector<!T, U> = Operators.Selector<T, U>

  /**
    What `stream` may be given: a JavaScript array, or any other finite
    iterable. Both are a finite sequence of elements; only the runtime
    `Array.isArray` tag tells them apart.
   */
  datatype Source<T> = ArraySource(elements: seq<T>) | IterableSource(elements: seq<T>)

  /** The error raised by an operation that is declared but not implemented. */
  datatype Error = NotImplemented(message: string)

  /** The message `selectMany` throws with. */
  const SelectManyMessage: string := "not impl this.."

  /**
    A pipeline node. `WhereEnumerable` keeps its upstream and predicate, as the
    class does. A `select` node yields elements of a different type than its
    upstream, and a datatype cannot hide that upstream type, so
    `SelectEnumerable` keeps the enumeration closure that captures the upstream
    node and the selector.
   */
  datatype Enumerable<!T> =
    | ArrayEnumerable(source: seq<T>)
    | IterEnumerable(source: seq<T>)
    | WhereEnumerable(upstream: Enumerable<T>, test: Predicate<T>)
    | SelectEnumerable(enumerate: () -> seq<T>)

  /** The elements one enumeration of a node yields, in order. */
  function Iterate<T>(e: Enumerable<T>): seq<T>
  {
    match e
    case ArrayEnumerable(source) => source
    case IterEnumerable(source) => source
    case WhereEnumerable(upstream, p) => Operators.Where(Iterate(upstream), p)
    case SelectEnumerable(run) => run()
  }

  /**
    `stream`: arrays get the array-backed node (with its fast paths), anything
    else the generic one; either way enumeration yields the source's elements.
   */
  function Stream<T>(iter: Source<T>): (e: Enumerable<T>)
    ensures e.ArrayEnumerable? <==> iter.ArraySource?
    ensures e.ArrayEnumerable? || e.IterEnumerable?
    ensures Iterate(e) == iter.elements
  {
    if iter.ArraySource? then ArrayEnumerable(iter.elements) else IterEnumerable(iter.elements)
  }

  /**
    `where` builds a node without touching the data. Enumerating it yields the
    upstream elements at exactly the positions where the predicate holds, in
    upstream order.
   */
  function Where<T>(e: Enumerable<T>, p: Predicate<T>): (r: Enumerable<T>)
    ensures Iterate(r) == Operators.Where(Iterate(e), p)
    ensures var idx := Operators.Positions(Iterate(e), p);
            && |Iterate(r)| == |idx|
            && forall k :: 0 <= k < |idx| ==> Iterate(r)[k] == Iterate(e)[idx[k]]
  {
    Operators.WhereSelectsPositions(Iterate(e), p);
    WhereEnumerable(e, p)
  }

  /** `select` builds a node; enumerating it projects every upstream element with its index. */
  function Select<T, U>(e: Enumerable<T>, f: Selector<T, U>): (r: Enumerable<U>)
    ensures r.SelectEnumerable?
    ensures |Iterate(r)| == |Iterate(e)|
    ensures forall i :: 0 <= i < |Iterate(e)| ==> Iterate(r)[i] == f(Iterate(e)[i], i)
  {
    SelectEnumerable(() => Operators.Select(Iterate(e), f))
  }

  /** `selectMany` is declared but throws as soon as it is called, whatever the selector. */
  function SelectMany<T, U>(e: Enumerable<T>, f: Selector<T, Enumerable<U>>): (r: Result<Enumerable<U>, Error>)
    ensures r.Failure? && r.error == NotImplemented(SelectManyMessage)
  {
    Failure(NotImplemented(SelectManyMessage))
  }

  /**
    `toArray`: the array-backed node hands back its source, every other node
    collects what one enumeration yields; both agree with enumeration.
   */
  function ToArray<T>(e: Enumerable<T>): (r: seq<T>)
    ensures r == Iterate(e)
  {
    match e
    case ArrayEnumerable(source) => source
    case _ => Iterate(e)
  }

  /**
    The body of the `where` generator: a counter starting at 0 and advanced for
    every element pulled, handed to the predicate with that element.
   */
  method RunWhere<T>(source: seq<T>, p: Predicate<T>) returns (out: seq<T>)
    ensures out == Operators.Where(source, p)
  {
    out := [];
    var i: nat := 0;
    while i < |source|
      invariant i <= |source|
      invariant out == Operators.Where(source[..i], p)
    {
      var v := source[i];
      assert source[..i + 1][..i] == source[..i];
      if p(v, i) {
        out := out + [v];
      }
      i := i + 1;
    }
    assert source[..|source|] == source;
  }

  /** The body of the `select` generator: yield the selector's value for each pulled element and its index. */
  method RunSelect<T, U>(source: seq<T>, f: Selector<T, U>) returns (out: seq<U>)
    ensures out == Operators.Select(source, f)
  {
    out := [];
    var i: nat := 0;
    while i < |source|
      invariant i <= |source|
      invariant out == Operators.Select(source[..i], f)
    {
      var v := source[i];
      assert source[..i + 1][..i] == source[..i];
      out := out + [f(v, i)];
      i := i + 1;
    }
    assert source[..|source|] == source;
  }

  /**
    One enumeration of a node. A `where` node enumerates its upstream and runs
    the generator loop over it, with a counter that starts at 0 on every pass;
    a `select` node evaluates its stored closure. The result depends on the
    node alone, so two passes over the same node yield the same elements.
   */
  method Enumerate<T>(e: Enumerable<T>) returns (out: seq<T>)
    ensures out == Iterate(e)
    decreases e
  {
    match e
    case ArrayEnumerable(source) =>
      out := source;
    case IterEnumerable(source) =>
      out := source;
    case WhereEnumerable(upstream, p) =>
      var items := Enumerate(upstream);
      out := RunWhere(items, p);
    case SelectEnumerable(run) =>
      out := run();
  }

  /** The generic `count`: one full enumeration, adding one per element pulled. */
  method GenericCount<T>(e: Enumerable<T>) returns (total: nat)
    ensures total == |ToArray(e)|
  {
    var rest := Enumerate(e);
    total := 0;
    while rest != []
      invariant total + |rest| == |Iterate(e)|
    {
      rest := rest[1..];
      total := total + 1;
    }
  }

  /**
    `count`: the array-backed node reports its source length without
    enumerating; every other node counts by enumeration. Both equal the number
    of elements `toArray` returns.
   */
  method Count<T>(e: Enumerable<T>) returns (n: nat)
    ensures n == |ToArray(e)|
  {
    if e.ArrayEnumerable? {
      n := |e.source|;
    } else {
      n := GenericCount(e);
    }
  }
}
