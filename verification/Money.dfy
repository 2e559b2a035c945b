/** Decimal numbers: rounding half up to whole numbers, two places or six, and the ceiling. */
module Money {

  /** `Math.round`: the nearest integer, halves going up. */
  function Round(x: real): int {
    (x + 0.5).Floor
  }

  function RoundCents(n: real): real {
    Round(n * 100.0) as real / 100.0
  }

  /** `round6`. */
  function Round6(n: real): real {
    Round(n * 1000000.0) as real / 1000000.0
  }

  function Ceiling(x: real): int {
    -((-x).Floor)
  }

  function MaxReal(a: real, b: real): real { if a < b then b else a }

  predicate WholeCents(n: real) {
    RoundCents(n) == n
  }

  lemma FloorUnique(y: real, k: int)
    requires k as real <= y < k as real + 1.0
    ensures y.Floor == k
  {
  }

  lemma RoundOfInt(k: int)
    ensures Round(k as real) == k
  {
    FloorUnique(k as real + 0.5, k);
  }

  lemma RoundNear(x: real)
    ensures x - 0.5 < Round(x) as real <= x + 0.5
  {
  }

  lemma RoundOrder(a: real, b: real)
    requires a <= b
    ensures Round(a) <= Round(b)
  {
    RoundNear(a);
    RoundNear(b);
    var i, j := (a + 0.5).Floor, (b + 0.5).Floor;
    assert i as real <= a + 0.5 && b + 0.5 < j as real + 1.0;
    assert i as real < (j + 1) as real;
  }

  lemma RoundIsWhole(x: real)
    ensures WholeCents(RoundCents(x))
  {
    var k := Round(x * 100.0);
    assert (k as real / 100.0) * 100.0 == k as real;
    RoundOfInt(k);
  }

  lemma RoundMonotone(a: real, b: real)
    requires a <= b
    ensures RoundCents(a) <= RoundCents(b)
  {
    RoundOrder(a * 100.0, b * 100.0);
  }

  lemma RoundPositive(x: real)
    requires x >= 0.005
    ensures RoundCents(x) >= 0.01
  {
    RoundNear(x * 100.0);
    RoundOrder(0.5, x * 100.0);
    FloorUnique(0.5 + 0.5, 1);
  }

  lemma WholeAtLeastOneCent(x: real)
    requires WholeCents(x) && x > 0.0
    ensures x >= 0.01
  {
    var k := Round(x * 100.0);
    assert x == k as real / 100.0;
    assert k >= 1;
  }
}
