/** The JavaScript rounding the source applies to its outputs, on exact reals:
    `Math.round` and `Number(x.toFixed(2))`. Binary floating point is not
    modelled; these are the rules those operations state for the exact value. */
module Numbers {

  function Abs(x: real): (r: real)
    ensures r >= 0.0
    ensures r == x || r == -x
  {
    if x < 0.0 then -x else x
  }

  /** `Math.round(x)`: the nearest integer, halves going towards +infinity. */
  function JsRound(x: real): (n: int)
    ensures x - 0.5 < n as real <= x + 0.5
  {
    (x + 0.5).Floor
  }

  /** `r` is a whole number of hundredths. */
  predicate WholeCents(r: real)
  {
    (r * 100.0).Floor as real == r * 100.0
  }

  /** Two whole numbers of hundredths less than a hundredth apart are equal,
      so a window of width 0.01 open at one end pins a rounding down. */
  lemma WholeCentsUnique(a: real, b: real)
    requires WholeCents(a) && WholeCents(b)
    requires b - 0.01 < a < b + 0.01
    ensures a == b
  {
    var m, n := (a * 100.0).Floor, (b * 100.0).Floor;
    assert a * 100.0 - b * 100.0 == (a - b) * 100.0;
    assert n - 1 < m < n + 1;
  }

  /** The negation of a whole number of hundredths is one. */
  lemma WholeCentsNeg(r: real)
    requires WholeCents(r)
    ensures WholeCents(-r)
  {
    var n := (r * 100.0).Floor;
    assert -r * 100.0 == (-n) as real;
  }

  /** Rounding to whole hundredths with `Math.round` on the value times 100:
      the hundredth in the window above `x - 0.005`, so a tie rounds up. */
  function RoundCents(x: real): (r: real)
    ensures WholeCents(r)
    ensures x - 0.005 < r <= x + 0.005
    ensures x >= 0.0 ==> r >= 0.0
  {
    JsRound(x * 100.0) as real / 100.0
  }

  /** `toFixed(2)` read back as a number: the nearest hundredth, a tie going to the one of
      larger magnitude (`toFixed` rounds the magnitude and keeps the sign). */
  function ToFixed2(x: real): (r: real)
    ensures WholeCents(r)
    ensures x >= 0.0 ==> x - 0.005 < r <= x + 0.005
    ensures x < 0.0 ==> x - 0.005 <= r < x + 0.005
    ensures x >= 0.0 ==> r >= 0.0
    ensures x <= 0.0 ==> r <= 0.0
  {
    if x < 0.0 then
      var c := RoundCents(-x);
      WholeCentsNeg(c);
      -c
    else RoundCents(x)
  }

  /** The contract of `ToFixed2` determines its value: any whole number of
      hundredths in the same window is the result. */
  lemma ToFixed2Unique(x: real, r: real)
    requires WholeCents(r)
    requires x >= 0.0 ==> x - 0.005 < r <= x + 0.005
    requires x < 0.0 ==> x - 0.005 <= r < x + 0.005
    ensures ToFixed2(x) == r
  {
    WholeCentsUnique(ToFixed2(x), r);
  }

  /** Rounding an already rounded value changes nothing. */
  lemma ToFixed2Idempotent(x: real)
    ensures ToFixed2(ToFixed2(x)) == ToFixed2(x)
  {
    var n := JsRound(Abs(x) * 100.0);
    var m := if x < 0.0 then -n else n;
    assert ToFixed2(x) == m as real / 100.0;
    assert ToFixed2(x) * 100.0 == m as real;
    assert JsRound(Abs(ToFixed2(x)) * 100.0) == n;
  }

  /** Dividing by a positive number keeps a strict order. */
  lemma DivLess(a: real, b: real, c: real)
    requires a < b && c > 0.0
    ensures a / c < b / c
  {
    assert b / c - a / c == (b - a) / c;
  }

  /** Scaling by `c / s` and back. */
  lemma ScaleBack(a: real, s: real, c: real)
    requires s != 0.0
    ensures (a / s) * c * s == a * c
  {
    assert (a / s) * s == a;
  }

  /** Multiplying by a non-negative number keeps a weak order. */
  lemma MulLessEq(a: real, b: real, c: real)
    requires a <= b && c >= 0.0
    ensures a * c <= b * c
  {
    assert b * c - a * c == (b - a) * c;
  }

  /** One step of a weighted sum keeps a lower bound `lo · Σw <= Σ v·w`. */
  lemma WeightedStepLower(lo: real, t: real, s: real, v: real, w: real)
    requires lo * t <= s && lo <= v && w >= 0.0
    ensures lo * (t + w) <= s + v * w
  {
    MulLessEq(lo, v, w);
    assert lo * (t + w) == lo * t + lo * w;
  }

  /** One step of a weighted sum keeps an upper bound `Σ v·w <= hi · Σw`. */
  lemma WeightedStepUpper(hi: real, t: real, s: real, v: real, w: real)
    requires s <= hi * t && v <= hi && w >= 0.0
    ensures s + v * w <= hi * (t + w)
  {
    MulLessEq(v, hi, w);
    assert hi * (t + w) == hi * t + hi * w;
  }

  /** A product of three positive numbers is positive. */
  lemma ProductPositive(a: real, b: real, c: real)
    requires a > 0.0 && b > 0.0 && c > 0.0
    ensures a * b * c > 0.0
  {
    assert a * b > 0.0;
  }

  /** One more value `v` with weight `w` keeps a weighted average `s / t`
      within `[lo, hi]`; `t = 0` is the empty sum. */
  lemma AverageStep(lo: real, hi: real, t: real, s: real, v: real, w: real, t': real, s': real)
    requires t >= 0.0 && (t == 0.0 ==> s == 0.0) && (t > 0.0 ==> lo <= s / t <= hi)
    requires lo <= v <= hi && w > 0.0
    requires t' == t + w && s' == s + v * w
    ensures t' > 0.0 && lo <= s' / t' <= hi
  {
    if t > 0.0 {
      MulLessEq(lo, s / t, t);
      MulLessEq(s / t, hi, t);
      assert (s / t) * t == s;
      WeightedStepLower(lo, t, s, v, w);
      WeightedStepUpper(hi, t, s, v, w);
    } else {
      assert lo * t' <= s' <= hi * t' by {
        MulLessEq(lo, v, w);
        MulLessEq(v, hi, w);
      }
    }
    DivBounds(lo, hi, s', t');
  }

  /** Bounds on a sum carry over to the average. */
  lemma DivBounds(lo: real, hi: real, s: real, t: real)
    requires t > 0.0 && lo * t <= s <= hi * t
    ensures lo <= s / t <= hi
  {
    var q := s / t;
    assert q * t == s;
    assert (q - lo) * t == s - lo * t;
    assert (hi - q) * t == hi * t - s;
  }
}
