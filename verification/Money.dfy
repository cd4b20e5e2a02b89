/** Exact rupee arithmetic. Amounts are reals in rupees; a paisa is a hundredth. Rounding is
    round-half-even on the exact value, the rule of the billing code's `round`. */
module Money {

  const PAISA: real := 0.01

  /** The integer nearest to x, ties going to the even neighbour. */
  function RoundHalfEven(x: real): (n: int)
    ensures -0.5 <= n as real - x <= 0.5
  {
    var low := x.Floor;
    var rest := x - low as real;
    if rest < 0.5 || (rest == 0.5 && low % 2 == 0) then low else low + 1
  }

  /** Rounding to two decimals. */
  function Round2(x: real): (r: real)
    ensures -PAISA / 2.0 <= r - x <= PAISA / 2.0
    ensures WholePaise(r)
  {
    var n := RoundHalfEven(x * 100.0);
    var r := n as real / 100.0;
    assert Whole(n as real) && r * 100.0 == n as real;
    r
  }

  predicate WholePaise(x: real) {
    Whole(x * 100.0)
  }

  predicate Whole(x: real) {
    x.Floor as real == x
  }

  lemma WholePaiseFixed(x: real)
    ensures Round2(x) == x <==> WholePaise(x)
  {
  }

  /** Whether x is closer to y, a whole number of paise, than to any other, or half-way with y even. */
  predicate RoundsTo(x: real, y: real) {
    || -PAISA / 2.0 < x - y < PAISA / 2.0
    || ((x - y == PAISA / 2.0 || y - x == PAISA / 2.0) && (y * 100.0).Floor % 2 == 0)
  }

  lemma RoundsToIff(x: real, y: real)
    requires WholePaise(y)
    ensures Round2(x) == y <==> RoundsTo(x, y)
  {
    var n := (y * 100.0).Floor;
    assert y * 100.0 == n as real;
    NearestIff(x * 100.0, n);
  }

  lemma NearestIff(x: real, n: int)
    ensures RoundHalfEven(x) == n
            <==> -0.5 < x - n as real < 0.5 || ((x - n as real == 0.5 || n as real - x == 0.5) && n % 2 == 0)
  {
  }

  lemma WholeAdd(n: int, y: real)
    ensures Whole(n as real + y) <==> Whole(y)
  {
    assert (n as real + y).Floor == n + y.Floor;
  }

  lemma WholePaiseAdd(x: real, y: real)
    requires WholePaise(x)
    ensures WholePaise(x + y) <==> WholePaise(y)
  {
    WholeAdd((x * 100.0).Floor, y * 100.0);
    assert (x + y) * 100.0 == (x * 100.0).Floor as real + y * 100.0;
  }

  lemma WholePaiseTimes(x: real, q: int, product: real)
    requires WholePaise(x) && product == x * q as real
    ensures WholePaise(product)
  {
    var n, p := (x * 100.0).Floor, x * 100.0;
    calc {
      product * 100.0;
      p * q as real;
      { assert p == n as real; }
      n as real * q as real;
      (n * q) as real;
    }
    assert Whole((n * q) as real);
  }

  lemma RoundMonotone(x: real, y: real)
    requires x <= y
    ensures Round2(x) <= Round2(y)
  {
    NearestMonotone(x * 100.0, y * 100.0);
  }

  lemma NearestMonotone(x: real, y: real)
    requires x <= y
    ensures RoundHalfEven(x) <= RoundHalfEven(y)
  {
  }
}
