/** Integer and real helpers shared by the recorder, the snapshot and the
    loop playhead: juce::jlimit, the C++ float-to-int conversion, and the
    facts about Euclidean remainder that the ring arithmetic needs. */
module Modular {

  function Max(a: int, b: int): int { if a >= b then a else b }

  function MaxReal(a: real, b: real): real { if a >= b then a else b }

  function Min(a: int, b: int): int { if a <= b then a else b }

  /** Distance between two integers. */
  function Dist(a: int, b: int): nat
  {
    if a >= b then a - b else b - a
  }

  /** Distance between two reals. */
  function DistReal(a: real, b: real): real
  {
    if a >= b then a - b else b - a
  }

  /** juce::jlimit on integers: the point of [lo, hi] nearest to v. */
  function Clamp(lo: int, hi: int, v: int): (r: int)
    requires lo <= hi
    ensures lo <= r <= hi
    ensures lo <= v <= hi ==> r == v
  {
    if v < lo then lo else if hi < v then hi else v
  }

  /** The clamp is the nearest point of the range: no value of [lo, hi]
      lies closer to v. */
  lemma ClampIsNearest(lo: int, hi: int, v: int, x: int)
    requires lo <= hi && lo <= x <= hi
    ensures Dist(Clamp(lo, hi, v), v) <= Dist(x, v)
  {
  }

  /** juce::jlimit on floating-point values, modelled on reals. */
  function ClampReal(lo: real, hi: real, v: real): (r: real)
    requires lo <= hi
    ensures lo <= r <= hi
    ensures lo <= v <= hi ==> r == v
  {
    if v < lo then lo else if hi < v then hi else v
  }

  /** The real clamp is the nearest point of the range as well. */
  lemma ClampRealIsNearest(lo: real, hi: real, v: real, x: real)
    requires lo <= hi && lo <= x <= hi
    ensures DistReal(ClampReal(lo, hi, v), v) <= DistReal(x, v)
  {
  }

  /** The C++ conversion `(int) x` of a floating-point value: truncation
      toward zero. */
  function Trunc(x: real): (i: int)
    ensures 0.0 <= x ==> 0 <= i && i as real <= x < i as real + 1.0
    ensures x < 0.0 ==> i <= 0 && i as real - 1.0 < x <= i as real
  {
    if x >= 0.0 then x.Floor else -((-x).Floor)
  }

  /** A nonzero multiple of a positive n is at least n away from 0. */
  lemma MulAwayFromZero(d: int, n: int)
    requires n >= 1
    ensures d >= 1 ==> d * n >= n
    ensures d <= -1 ==> d * n <= -n
  {
  }

  /** The remainder is determined by any decomposition x == q * n + r with
      r in [0, n). */
  lemma {:induction false} ModUnique(x: int, n: int, q: int, r: int)
    requires n >= 1 && 0 <= r < n && x == q * n + r
    ensures x % n == r
  {
    var q', r' := x / n, x % n;
    assert x == q' * n + r';
    assert (q - q') * n == r' - r;
    MulAwayFromZero(q - q', n);
  }

  /** Adding whole multiples of n does not change the remainder. */
  lemma {:induction false} ModShift(x: int, k: int, n: int)
    requires n >= 1
    ensures (x + k * n) % n == x % n
  {
    var q := x / n;
    assert x == q * n + x % n;
    assert x + k * n == (q + k) * n + x % n;
    ModUnique(x + k * n, n, q + k, x % n);
  }

  /** Advancing a ring cursor by one and resetting it to 0 at the capacity
      (the `if (++w >= N) w = 0` idiom) is addition modulo the capacity. */
  lemma {:induction false} ModStep(a: int, n: int)
    requires n >= 1
    ensures a % n + 1 < n ==> (a + 1) % n == a % n + 1
    ensures a % n + 1 == n ==> (a + 1) % n == 0
  {
    var q := a / n;
    assert a == q * n + a % n;
    if a % n + 1 < n {
      ModUnique(a + 1, n, q, a % n + 1);
    } else {
      ModUnique(a + 1, n, q + 1, 0);
    }
  }

  /** Reducing the first summand first does not change the remainder. */
  lemma {:induction false} ModAddMod(x: int, y: int, n: int)
    requires n >= 1
    ensures (x % n + y) % n == (x + y) % n
  {
    var q := x / n;
    assert x == q * n + x % n;
    assert x % n + y == (x + y) + (-q) * n;
    ModShift(x + y, -q, n);
  }

  /** The ring slot k steps after cursor w in a ring of capacity n. */
  function Slot(w: int, k: int, n: int): (s: int)
    requires n >= 1
    ensures 0 <= s < n
  {
    (w + k) % n
  }

  /** Two cursors fewer than n steps apart sit at different ring slots. */
  lemma {:induction false} ModDistinct(w: int, a: int, b: int, n: int)
    requires n >= 1 && a < b && b - a < n
    ensures (w + a) % n != (w + b) % n
  {
    var qa, qb := (w + a) / n, (w + b) / n;
    var ra, rb := (w + a) % n, (w + b) % n;
    assert w + a == qa * n + ra;
    assert w + b == qb * n + rb;
    assert (qb - qa) * n == (b - a) - (rb - ra);
    MulAwayFromZero(qb - qa, n);
  }

  /** Reading a ring of capacity n from slot e onward: offset k (k < n) maps
      to e + k, folded back once past the end. */
  lemma {:induction false} RingOffset(e: int, k: int, n: int)
    requires 0 <= e < n && 0 <= k < n
    ensures (e + k) % n == if e + k < n then e + k else e + k - n
  {
    if e + k < n {
      ModUnique(e + k, n, 0, e + k);
    } else {
      ModUnique(e + k, n, 1, e + k - n);
    }
  }
}
