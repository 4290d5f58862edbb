/** Shared value types: optional values, results, and the rounding the Python code relies on. */
module Basics {
  datatype Option<+T> = None | Some(value: T)

  datatype Result<+T, +E> = Ok(value: T) | Err(error: E)

  function Max(x: int, y: int): int {
    if x >= y then x else y
  }

  function Min(x: int, y: int): int {
    if x <= y then x else y
  }

  function Gap(x: int, y: int): nat {
    if x >= y then x - y else y - x
  }

  function Abs(x: real): real {
    if x >= 0.0 then x else -x
  }

  /** Python's `round` and numpy's `np.round`: to the nearest integer, ties to even. */
  function RoundHalfEven(x: real): int {
    var f := x.Floor;
    var d := x - f as real;
    if d < 0.5 || (d == 0.5 && f % 2 == 0) then f else f + 1
  }

  lemma RoundMonotone(x: real, y: real)
    requires x <= y
    ensures RoundHalfEven(x) <= RoundHalfEven(y)
  {
  }

  /** The rounded value is nearest, and of two equally near ones it is even: there is only one such integer. */
  lemma RoundNearest(x: real)
    ensures var k := RoundHalfEven(x);
            -0.5 <= k as real - x <= 0.5 && (k as real - x == 0.5 || x - k as real == 0.5 ==> k % 2 == 0)
  {
  }

  lemma RoundExact(k: int)
    ensures RoundHalfEven(k as real) == k
  {
  }

  function Reverse<T>(s: seq<T>): (r: seq<T>)
    ensures |r| == |s| && forall k :: 0 <= k < |s| ==> r[k] == s[|s| - 1 - k]
  {
    if s == [] then [] else [s[|s| - 1]] + Reverse(s[..|s| - 1])
  }

  lemma ScaleMonotone(c: real, x: real, y: real)
    requires c >= 0.0 && x <= y
    ensures c * x <= c * y && x * c <= y * c
  {
  }

  /** A product, for the steps in which it is only a number. */
  function Product(x: real, y: real): real {
    x * y
  }

  lemma WholeProduct(x: int, d: int)
    ensures (x * d) as real == Product(x as real, d as real)
  {
  }

  lemma ProductApart(u: real, w: real, c: real)
    ensures Product(w, c) - Product(u, c) == Product(w - u, c)
  {
  }

  lemma ProductMonotone(v: real, w: real, c: real)
    requires c >= 0.0 && v <= w
    ensures Product(v, c) <= Product(w, c)
  {
    assert (w - v) * c >= 0.0;
  }

  lemma ProductOfHalf(c: real)
    ensures Product(0.5, c) == 0.5 * c && Product(-0.5, c) == -0.5 * c
  {
  }

  lemma ProductBounds(v: real, c: real)
    requires c >= 0.0 && -0.5 <= v <= 0.5
    ensures -0.5 * c <= Product(v, c) <= 0.5 * c
  {
    hide Product;
    ProductMonotone(v, 0.5, c);
    ProductMonotone(-0.5, v, c);
    ProductOfHalf(c);
  }

  lemma DivideBoth(x: real, y: real, c: real)
    requires x <= y && c > 0.0
    ensures x / c <= y / c
  {
  }

  lemma DivideSelf(c: real)
    requires c > 0.0
    ensures c / c == 1.0
  {
  }

  lemma DivideExact(x: real, c: real)
    requires c > 0.0
    ensures x / c * c == x
    ensures x >= 0.0 ==> x / c >= 0.0
  {
    if x >= 0.0 {
      DivideBoth(0.0, x, c);
    }
  }
}
