/**
  The behaviours the library's tests exercise for `where`, `select`, their
  composition and `selectMany`, as concrete facts about the model.
 */
module Scenarios {
  import opened Wrappers
  import Operators
  import opened Enumerables

  function Abs(x: int): int
  {
    if x < 0 then -x else x
  }

  /**
    JavaScript's `%`: the remainder of division truncated toward zero. It takes
    the sign of the dividend, is smaller than the divisor in magnitude, and
    differs from the dividend by a multiple of the divisor.
   */
  function JsRem(a: int, b: int): (r: int)
    requires b != 0
    ensures a >= 0 ==> 0 <= r < Abs(b)
    ensures a < 0 ==> -Abs(b) < r <= 0
    ensures (a - r) % b == 0
  {
    if a >= 0 then
      RemUnique(a - a % b, b, a / b, 0);
      a % b
    else
      var q := (-a) / b;
      assert a + (-a) % b == (-q) * b;
      RemUnique(a + (-a) % b, b, -q, 0);
      -((-a) % b)
  }

  /** Euclidean division is unique: a decomposition with an in-range remainder gives `%`. */
  lemma RemUnique(y: int, b: int, e: int, n: int)
    requires b != 0
    requires y == e * b + n
    requires 0 <= n < (if b < 0 then -b else b)
    ensures y % b == n
  {
    var d := y / b;
    var m := y % b;
    assert y == d * b + m;
    var k := e - d;
    assert k * b == m - n by {
      assert e * b - d * b == (e - d) * b;
    }
  }

  /**
    `String(v)` for a value from 0 to 9. Any other value gives "?"; the
    samples below never reach that case.
   */
  function DigitString(v: int): string
  {
    if 0 <= v < 10 then [('0' as int + v) as char] else "?"
  }

  /** `v % 2 === 1` */
  predicate IsOdd(v: int, i: nat)
  {
    JsRem(v, 2) == 1
  }

  /** `v % 2 === 0` */
  predicate IsEven(v: int, i: nat)
  {
    JsRem(v, 2) == 0
  }

  /** `v % 2 === 1 && i % 2 === 0` */
  predicate IsOddAtEvenIndex(v: int, i: nat)
  {
    JsRem(v, 2) == 1 && JsRem(i, 2) == 0
  }

  /** The selector `v => String(v)`, for single-digit values. */
  function DigitStringOf(v: int, i: nat): string
  {
    DigitString(v)
  }

  const Sample: seq<int> := [1, 2, 3, 3, 6, 8, 8, 9, 4]

  /** `where(v => v % 2 === 1)` on `[1, 2, 3]` keeps `[1, 3]`. */
  lemma WhereOdd()
    ensures ToArray(Where(Stream(ArraySource([1, 2, 3])), IsOdd)) == [1, 3]
  {
    var s := [1, 2, 3];
    assert Operators.Where(s, IsOdd) == [1, 3] by {
      assert s[..0] == [] && s[..3] == s;
      Operators.WhereStep(s, 0, IsOdd);
      Operators.WhereStep(s, 1, IsOdd);
      Operators.WhereStep(s, 2, IsOdd);
    }
  }

  /** The predicate's index is the upstream position: odd values at even positions of the sample. */
  lemma WhereOddAtEvenIndex()
    ensures ToArray(Where(Stream(ArraySource(Sample)), IsOddAtEvenIndex)) == [1, 3]
  {
    var s := Sample;
    assert Operators.Where(s, IsOddAtEvenIndex) == [1, 3] by {
      assert s[..0] == [] && s[..9] == s;
      Operators.WhereStep(s, 0, IsOddAtEvenIndex);
      Operators.WhereStep(s, 1, IsOddAtEvenIndex);
      Operators.WhereStep(s, 2, IsOddAtEvenIndex);
      Operators.WhereStep(s, 3, IsOddAtEvenIndex);
      Operators.WhereStep(s, 4, IsOddAtEvenIndex);
      Operators.WhereStep(s, 5, IsOddAtEvenIndex);
      Operators.WhereStep(s, 6, IsOddAtEvenIndex);
      Operators.WhereStep(s, 7, IsOddAtEvenIndex);
      Operators.WhereStep(s, 8, IsOddAtEvenIndex);
    }
  }

  /** `where(v => v % 2 === 0)` on the sample keeps `[2, 6, 8, 8, 4]`. */
  lemma WhereEven()
    ensures ToArray(Where(Stream(ArraySource(Sample)), IsEven)) == [2, 6, 8, 8, 4]
  {
    EvensOfSample();
  }

  /** The even values of the sample, pulled one at a time. */
  lemma EvensOfSample()
    ensures Operators.Where(Sample, IsEven) == [2, 6, 8, 8, 4]
  {
    var s := Sample;
    assert s[..0] == [] && s[..9] == s;
    Operators.WhereStep(s, 0, IsEven);
    Operators.WhereStep(s, 1, IsEven);
    Operators.WhereStep(s, 2, IsEven);
    Operators.WhereStep(s, 3, IsEven);
    Operators.WhereStep(s, 4, IsEven);
    Operators.WhereStep(s, 5, IsEven);
    Operators.WhereStep(s, 6, IsEven);
    Operators.WhereStep(s, 7, IsEven);
    Operators.WhereStep(s, 8, IsEven);
  }

  /** `select(v => v % 2 === 1)` on `[1, 2, 3]` gives `[true, false, true]`. */
  lemma SelectOdd()
    ensures ToArray(Select(Stream(ArraySource([1, 2, 3])), IsOdd)) == [true, false, true]
  {
  }

  /** `select((v, i) => v % 2 === 1 && i % 2 === 0)` on the sample. */
  lemma SelectOddAtEvenIndex()
    ensures ToArray(Select(Stream(ArraySource(Sample)), IsOddAtEvenIndex))
            == [true, false, true, false, false, false, false, false, false]
  {
  }

  /** `where(v => v % 2 === 0).select(v => String(v))` on the sample. */
  lemma WhereThenSelect()
    ensures ToArray(Select(Where(Stream(ArraySource(Sample)), IsEven), DigitStringOf)) == ["2", "6", "8", "8", "4"]
  {
    WhereEven();
    var r := ToArray(Select(Where(Stream(ArraySource(Sample)), IsEven), DigitStringOf));
    assert |r| == 5;
    assert r[0] == "2" && r[1] == "6" && r[2] == "8" && r[3] == "8" && r[4] == "4";
  }

  /** `selectMany` on `[[1], [2], [3], []]` throws instead of flattening. */
  lemma SelectManyThrows()
    ensures SelectMany(Stream(ArraySource([[1], [2], [3], []])), (v, i) => Stream(ArraySource(v)))
            == Failure(NotImplemented("not impl this.."))
  {
  }
}
