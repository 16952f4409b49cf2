/**
 * The grid quantizer of src/utils/createGridWith.ts: a factory that rejects a
 * non-positive grid size and otherwise returns the closure
 * `num => Math.round(num / gridSize) * gridSize`.
 *
 * Pixel values and grid sizes are integers. `Math.round` is JavaScript's:
 * it returns floor(x + 1/2), so a value exactly half-way between two
 * multiples goes to the larger one (toward +infinity, also for negatives).
 */
module Quantizer {
  import opened Wrappers

  /**
   * The error thrown by `createGridWith` for a size that is not positive.
   * The thrown `Error` carries only a message; the rejected size is kept
   * here so that callers can tell which configuration failed.
   */
  datatype GridError = GridSizeNotPositive(gridSize: int)

  /**
   * Math.round(num / den) for integers and a positive divisor:
   * the unique integer r with r - 1/2 <= num/den < r + 1/2.
   */
  function JsRound(num: int, den: int): (r: int)
    requires den > 0
    ensures 2 * den * r <= 2 * num + den < 2 * den * r + 2 * den
  {
    (2 * num + den) / (2 * den)
  }

  /** The closure returned by createGridWith(gridSize), applied to one value. */
  function Quantize(v: int, gridSize: int): (r: int)
    requires gridSize > 0
    ensures r % gridSize == 0
    ensures -gridSize <= 2 * (v - r) < gridSize
  {
    var q := JsRound(v, gridSize);
    MultipleMod(q, gridSize);
    q * gridSize
  }

  /** createGridWith: a configuration error for gridSize <= 0, otherwise the snapping closure. */
  function CreateGridWith(gridSize: int): (r: Result<int -> int, GridError>)
    ensures r.Failure? <==> gridSize <= 0
    ensures r.Failure? ==> r.error == GridSizeNotPositive(gridSize)
    ensures r.Success? ==> forall v :: r.value(v) % gridSize == 0
    ensures r.Success? ==> forall v :: r.value(v) == Quantize(v, gridSize)
  {
    if gridSize <= 0 then Failure(GridSizeNotPositive(gridSize))
    else Success((num: int) => Quantize(num, gridSize))
  }

  /** Every multiple of a positive number leaves no remainder. */
  lemma MultipleMod(k: int, c: int)
    requires c > 0
    ensures (k * c) % c == 0
  {
    var d, m := (k * c) / c, (k * c) % c;
    assert k * c == c * d + m && 0 <= m < c;
    assert c * (k - d) == m;
    ProductBounds(c, k - d);
  }

  /** A nonzero whole multiple of c is at least c away from zero. */
  lemma ProductBounds(c: int, n: int)
    requires c > 0
    ensures n >= 1 ==> c * n >= c
    ensures n <= -1 ==> c * n <= -c
    ensures n >= 0 ==> c * n >= 0
  {
  }

  /**
   * The quantizer is characterised by "nearest multiple, ties upward": any
   * multiple k * gridSize within (v - gridSize/2, v + gridSize/2] is the result.
   */
  lemma NearestMultipleIsUnique(v: int, gridSize: int, k: int)
    requires gridSize > 0
    requires -gridSize <= 2 * (v - k * gridSize) < gridSize
    ensures Quantize(v, gridSize) == k * gridSize
  {
    var q := JsRound(v, gridSize);
    // both 2*c*q and 2*c*k lie in (2v - c, 2v + c], an interval shorter than 2c
    assert 2 * gridSize * (k - q) < 2 * gridSize;
    assert 2 * gridSize * (q - k) < 2 * gridSize;
    ProductBounds(2 * gridSize, k - q);
  }

  function Abs(n: int): nat {
    if n >= 0 then n else -n
  }

  /**
   * A result is a nearest multiple: no farther than half a cell from the
   * input, and no multiple of the grid size is closer.
   */
  lemma QuantizeNearest(v: int, gridSize: int, k: int)
    requires gridSize > 0
    ensures 2 * Abs(Quantize(v, gridSize) - v) <= gridSize
    ensures Abs(k * gridSize - v) >= Abs(Quantize(v, gridSize) - v)
  {
    var r, q := Quantize(v, gridSize), JsRound(v, gridSize);
    var m := (k - q) * gridSize;
    assert r == q * gridSize;
    assert k * gridSize == r + m by {
      assert (k - q) * gridSize == k * gridSize - q * gridSize;
    }
    ProductBounds(gridSize, k - q);
    assert k - q <= -1 ==> m <= -gridSize;
    assert k - q >= 1 ==> m >= gridSize;
    assert k - q == 0 ==> m == 0;
  }

  /** Every multiple of the grid size is left where it is. */
  lemma MultipleIsFixedPoint(k: int, gridSize: int)
    requires gridSize > 0
    ensures Quantize(k * gridSize, gridSize) == k * gridSize
  {
    NearestMultipleIsUnique(k * gridSize, gridSize, k);
  }

  /** Snapping twice is snapping once. */
  lemma QuantizeIdempotent(v: int, gridSize: int)
    requires gridSize > 0
    ensures Quantize(Quantize(v, gridSize), gridSize) == Quantize(v, gridSize)
  {
    MultipleIsFixedPoint(JsRound(v, gridSize), gridSize);
  }

  /** Snapping preserves order. */
  lemma QuantizeMonotone(v1: int, v2: int, gridSize: int)
    requires gridSize > 0
    requires v1 <= v2
    ensures Quantize(v1, gridSize) <= Quantize(v2, gridSize)
  {
    var q1, q2 := JsRound(v1, gridSize), JsRound(v2, gridSize);
    // q1 > q2 would give 2*c*q1 >= 2*c*q2 + 2c > 2*v2 + c >= 2*v1 + c, contradicting JsRound(v1)
    ProductBounds(2 * gridSize, q1 - q2);
    assert q1 <= q2;
    ProductBounds(gridSize, q2 - q1);
    assert q1 * gridSize <= q2 * gridSize;
  }

  /** A size of zero is refused; no default is substituted. */
  lemma ZeroSizeRejected()
    ensures CreateGridWith(0) == Failure(GridSizeNotPositive(0))
  {
  }

  /** A negative size is refused. */
  lemma NegativeSizeRejected()
    ensures CreateGridWith(-5) == Failure(GridSizeNotPositive(-5))
  {
  }

  /** With size 20, 15 snaps up to 20 and 143 snaps down to 140. */
  lemma SizeTwentyExamples()
    ensures CreateGridWith(20).Success?
    ensures CreateGridWith(20).value(15) == 20
    ensures CreateGridWith(20).value(143) == 140
  {
  }

  /** JavaScript's tie rule: half-way values go toward +infinity, also below zero. */
  lemma TiesRoundUpward()
    ensures Quantize(25, 50) == 50
    ensures Quantize(-25, 50) == 0
    ensures Quantize(149, 50) == 150
    ensures Quantize(0, 50) == 0
    ensures Quantize(-30, 50) == -50
  {
  }
}
