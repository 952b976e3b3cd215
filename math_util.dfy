/**
 * The two numeric helpers the motor abstraction borrows from the robot
 * library's MathUtil: clamping into an interval, and wrapping a value into a
 * circular range ("input modulus").
 */
module MathUtil {

  /**
   * `n` whole copies of `m`, counted out one copy at a time (so that it can
   * be reasoned about without multiplying an integer by a real).
   */
  function Times(n: int, m: real): real
    decreases if n < 0 then -n else n
  {
    if n == 0 then 0.0
    else if n > 0 then Times(n - 1, m) + m
    else Times(n + 1, m) - m
  }

  /** Counting out copies agrees with multiplication. */
  lemma {:induction false} TimesIsProduct(n: int, m: real)
    ensures Times(n, m) == n as real * m
    decreases if n < 0 then -n else n
  {
    if n > 0 {
      TimesIsProduct(n - 1, m);
      assert (n - 1) as real * m + m == n as real * m;
    } else if n < 0 {
      TimesIsProduct(n + 1, m);
      assert (n + 1) as real * m - m == n as real * m;
    }
  }

  /** Copies add up: `i` copies and `j` copies make `i + j` copies. */
  lemma {:induction false} TimesAdd(i: int, j: int, m: real)
    ensures Times(i, m) + Times(j, m) == Times(i + j, m)
    decreases if i < 0 then -i else i
  {
    if i > 0 {
      TimesAdd(i - 1, j, m);
      TimesStep(i + j - 1, m);
    } else if i < 0 {
      TimesAdd(i + 1, j, m);
      TimesStep(i + j, m);
    }
  }

  /** One more copy adds `m`, whichever the sign of the count. */
  lemma TimesStep(n: int, m: real)
    ensures Times(n + 1, m) == Times(n, m) + m
  {
  }

  /** For positive `m`, more copies weigh more. */
  lemma {:induction false} TimesMonotone(j: int, k: int, m: real)
    requires j <= k && 0.0 < m
    ensures Times(j, m) <= Times(k, m)
    decreases k - j
  {
    if j < k {
      TimesMonotone(j, k - 1, m);
      TimesStep(k - 1, m);
    }
  }

  /** `a` and `b` differ by a whole multiple of `m`. */
  ghost predicate Congruent(a: real, b: real, m: real) {
    exists n: int :: a - b == Times(n, m)
  }

  function Min(a: real, b: real): real { if a <= b then a else b }

  function Max(a: real, b: real): real { if a >= b then a else b }

  /**
   * MathUtil.clamp(value, low, high) = max(low, min(value, high)): values
   * inside [low, high] pass through, values outside are pulled to the nearer bound.
   */
  function Clamp(value: real, low: real, high: real): (r: real)
    ensures low <= r
    ensures low <= high ==> r <= high
    ensures low <= value <= high ==> r == value
    ensures value <= low ==> r == low
    ensures low <= high <= value ==> r == high
  {
    Max(low, Min(value, high))
  }

  /**
   * MathUtil.inputModulus(value, min, max): a point of the circular range
   * [min, max] equivalent to `value`. The library's own arithmetic is not
   * part of this model, so the result is characterised only by its range and
   * its congruence; which end of the range is excluded is left open.
   */
  ghost function InputModulus(value: real, min: real, max: real): (r: real)
    requires min < max
    ensures min <= r <= max
    ensures Congruent(r, value, max - min)
  {
    WrapExists(value, min, max);
    var r :| IsWrapOf(r, value, min, max);
    r
  }

  /** `r` is a point of [min, max] congruent to `value` modulo the width of the range. */
  ghost predicate IsWrapOf(r: real, value: real, min: real, max: real) {
    min <= r <= max && Congruent(r, value, max - min)
  }

  /** Some point of [min, max] is congruent to `value`: shift by a floored multiple of the width. */
  lemma WrapExists(value: real, min: real, max: real)
    requires min < max
    ensures exists r :: IsWrapOf(r, value, min, max)
  {
    var m := max - min;
    var k := ((value - min) / m).Floor;
    RemainderBounds(value - min, m, k as real);
    var r := min + ((value - min) - k as real * m);
    TimesIsProduct(-k, m);
    assert r - value == Times(-k, m);
    assert IsWrapOf(r, value, min, max);
  }

  /** If `kr` is the floor of `x / m`, then `x - kr * m` lies in [0, m). */
  lemma RemainderBounds(x: real, m: real, kr: real)
    requires 0.0 < m
    requires kr <= x / m < kr + 1.0
    ensures 0.0 <= x - kr * m < m
  {
    var q := x / m;
    var t := q - kr;
    assert q * m == x;
    assert x - kr * m == t * m;
    ScaleBounds(t, m);
  }

  /** A fraction in [0, 1) of a positive `m` lies in [0, m). */
  lemma ScaleBounds(t: real, m: real)
    requires 0.0 <= t < 1.0 && 0.0 < m
    ensures 0.0 <= t * m < m
  {
  }

  /** Congruence modulo `m` is symmetric and transitive. */
  lemma CongruentTrans(a: real, b: real, c: real, m: real)
    requires Congruent(a, b, m) && Congruent(b, c, m)
    ensures Congruent(a, c, m) && Congruent(c, a, m)
  {
    var i :| a - b == Times(i, m);
    var j :| b - c == Times(j, m);
    TimesAdd(i, j, m);
    TimesAdd(i + j, -(i + j), m);
    assert a - c == Times(i + j, m);
    assert c - a == Times(-(i + j), m);
  }

  /** `a` and `b` name the same point of the circle [min, max] (its ends are one point). */
  predicate WrapEquivalent(a: real, b: real, min: real, max: real) {
    a == b || (a == min && b == max) || (a == max && b == min)
  }

  /**
   * Two points of the closed range [min, max] that are congruent modulo its
   * width are the same point, or are its two ends.
   */
  lemma WrapUnique(a: real, b: real, min: real, max: real)
    requires min < max
    requires min <= a <= max && min <= b <= max
    requires Congruent(a, b, max - min)
    ensures WrapEquivalent(a, b, min, max)
  {
    var m := max - min;
    var k :| a - b == Times(k, m);
    if k >= 2 {
      assert Times(2, m) == 2.0 * m;
      TimesMonotone(2, k, m);
    } else if k <= -2 {
      assert Times(-2, m) == -2.0 * m;
      TimesMonotone(k, -2, m);
    } else if k == 1 {
      assert a - b == m;
    } else if k == -1 {
      assert a - b == -m;
    }
  }

  /**
   * Wrapping is periodic: `value` and `value + n * (max - min)` wrap to the
   * same point, up to the identification of the two ends of the range.
   */
  lemma InputModulusPeriodic(value: real, n: int, min: real, max: real)
    requires min < max
    ensures WrapEquivalent(InputModulus(value, min, max), InputModulus(value + Times(n, max - min), min, max), min, max)
  {
    var m := max - min;
    var shifted := value + Times(n, m);
    var a, b := InputModulus(value, min, max), InputModulus(shifted, min, max);
    assert Congruent(shifted, value, m) by {
      assert shifted - value == Times(n, m);
    }
    CongruentTrans(b, shifted, value, m);
    CongruentTrans(a, value, b, m);
    WrapUnique(a, b, min, max);
  }
}
