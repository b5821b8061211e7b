/** Trust decay: promotion grants trust that halves with every half-life. */
module Trust {
  import opened MemoryModel

  const DAY := 86400.0

  /** The memory section of the configuration; `halve` stands for x |-> 0.5 ** x. */
  datatype Config = Config(
    t1ReviewDays: int, t2ReviewDays: int, t3TtlDays: int, t3Confirmations: int,
    demoteFloor: real, t0ReviewSeconds: real, sensitiveFactor: real,
    rephraseSimilarity: real, halve: real -> real)

  predicate Splits(halve: real -> real, x: real, y: real) {
    halve(x + y) == halve(x) * halve(y)
  }

  /** The laws of 0.5 ** x on non-negative exponents. */
  ghost predicate IsHalving(halve: real -> real) {
    && halve(1.0) == 0.5
    && (forall x :: x >= 0.0 ==> 0.0 < halve(x) <= 1.0)
    && (forall x, y :: x >= 0.0 && y >= 0.0 ==> Splits(halve, x, y))
  }

  /** The ranges the configuration schema enforces. */
  ghost predicate ValidConfig(c: Config) {
    && c.t1ReviewDays >= 1 && c.t2ReviewDays >= 1 && c.t3TtlDays >= 1
    && 1 <= c.t3Confirmations <= 5
    && 0.05 <= c.demoteFloor <= 0.9
    && 0.0 <= c.t0ReviewSeconds
    && 0.05 <= c.sensitiveFactor <= 1.0
    && 0.5 <= c.rephraseSimilarity <= 0.99
    && IsHalving(c.halve)
  }

  function ReviewDays(c: Config, tier: Tier): Option<int> {
    match tier
    case T0 => None
    case T1 => Some(c.t1ReviewDays)
    case T2 => Some(c.t2ReviewDays)
    case T3 => Some(c.t3TtlDays)
    case T4 => Some(c.t3TtlDays)
  }

  function Seconds(days: int, factor: real): real { days as real * DAY * factor }

  function HalfLife(c: Config, tier: Tier, s: Sensitivity): Option<real> {
    match ReviewDays(c, tier)
    case None => None
    case Some(days) => Some(Seconds(days, if s == Sensitive then c.sensitiveFactor else 1.0))
  }

  /** Time since the trust clock was last reset, never negative. */
  function Age(last: Option<Time>, now: Time): real {
    Max(0.0, now - (if last.Some? then last.value else now))
  }

  function Ratio(x: real, y: real): real { if y == 0.0 then 0.0 else x / y }

  function Decayed(halve: real -> real, ceiling: real, age: real, hl: real): real {
    ceiling * halve(Ratio(age, hl))
  }

  function CurrentTrust(c: Config, tier: Tier, last: Option<Time>, now: Time,
                        ceiling: real, s: Sensitivity): real
  {
    match HalfLife(c, tier, s)
    case None => 1.0
    case Some(hl) => Decayed(c.halve, ceiling, Age(last, now), hl)
  }

  function RowTrust(c: Config, r: Row, now: Time): real {
    CurrentTrust(c, r.tier, r.lastReaffirmed, now, r.trustCeiling, r.sensitivity)
  }

  function ReviewAt(c: Config, tier: Tier, now: Time): Option<Time> {
    match HalfLife(c, tier, Normal)
    case None => None
    case Some(hl) => Some(now + hl)
  }

  lemma SecondsOrder(days: int, f: real, f': real)
    requires days > 0 && 0.0 < f <= f'
    ensures 0.0 < Seconds(days, f) <= Seconds(days, f')
  {
    var base := days as real * DAY;
    assert 0.0 < base * f <= base * f';
  }

  lemma HalfLifePositive(c: Config, tier: Tier, s: Sensitivity)
    requires ValidConfig(c) && tier != T0
    ensures HalfLife(c, tier, s).Some? && HalfLife(c, tier, s).value > 0.0
  {
    SecondsOrder(ReviewDays(c, tier).value, if s == Sensitive then c.sensitiveFactor else 1.0, 1.0);
  }

  lemma RatioMonotone(x: real, x': real, y: real, y': real)
    requires 0.0 <= x <= x' && 0.0 < y' <= y
    ensures 0.0 <= Ratio(x, y) <= Ratio(x', y')
  {
    assert x / y <= x' / y;
    assert x' / y <= x' / y';
  }

  lemma Shrink(a: real, f: real)
    requires 0.0 < a && 0.0 < f <= 1.0
    ensures 0.0 < a * f <= a
  {
  }

  lemma ScaleOrder(a: real, b: real, f: real)
    requires f > 0.0
    ensures a < b <==> a * f < b * f
  {
  }

  lemma HalvingSum(halve: real -> real, x: real, y: real)
    requires IsHalving(halve) && 0.0 <= x && 0.0 <= y
    ensures halve(x + y) == halve(x) * halve(y)
  {
    assert Splits(halve, x, y);
  }

  lemma HalvingBounds(halve: real -> real, x: real)
    requires IsHalving(halve) && 0.0 <= x
    ensures 0.0 < halve(x) <= 1.0
  {
  }

  lemma SuccessorTimes(n: nat, x: real)
    requires n > 0
    ensures x + (n - 1) as real * x == n as real * x
  {
  }

  /** A longer wait never leaves more of the trust. */
  lemma HalvingDecreases(halve: real -> real, x: real, y: real)
    requires IsHalving(halve) && 0.0 <= x <= y
    ensures 0.0 < halve(y) <= halve(x)
  {
    hide IsHalving;
    var d := y - x;
    HalvingBounds(halve, x);
    HalvingBounds(halve, d);
    HalvingSum(halve, x, d);
    Shrink(halve(x), halve(d));
  }

  /** A decaying score lies in (0, ceiling]; a T0 score is exactly one. */
  lemma TrustWithinCeiling(c: Config, tier: Tier, last: Option<Time>, now: Time, ceiling: real, s: Sensitivity)
    requires ValidConfig(c) && 0.0 < ceiling
    ensures tier == T0 ==> CurrentTrust(c, tier, last, now, ceiling, s) == 1.0
    ensures tier != T0 ==> 0.0 < CurrentTrust(c, tier, last, now, ceiling, s) <= ceiling
  {
    if tier != T0 {
      HalfLifePositive(c, tier, s);
      var x := Ratio(Age(last, now), HalfLife(c, tier, s).value);
      assert 0.0 <= x;
      var h := c.halve(x);
      assert 0.0 < h <= 1.0;
      assert 0.0 < ceiling * h <= ceiling;
    }
  }

  /**
   * Trust falls with time, and sensitive rows fall first: with the same ceiling and the
   * same clock, a sensitive row later on never has more trust than a normal row earlier.
   */
  lemma TrustDecays(c: Config, tier: Tier, last: Option<Time>, now: Time, later: Time, ceiling: real,
                    s: Sensitivity, s': Sensitivity)
    requires ValidConfig(c) && 0.0 < ceiling && now <= later
    requires s == s' || s' == Sensitive
    ensures CurrentTrust(c, tier, last, later, ceiling, s') <= CurrentTrust(c, tier, last, now, ceiling, s)
  {
    if tier != T0 {
      HalfLifePositive(c, tier, s);
      HalfLifePositive(c, tier, s');
      var hl, hl' := HalfLife(c, tier, s).value, HalfLife(c, tier, s').value;
      SensitiveHalfLife(c, tier);
      var x, y := Age(last, now), Age(last, later);
      assert hl' <= hl;
      DecayOrder(c.halve, x, y, hl, hl', ceiling);
    }
  }

  lemma DecayOrder(halve: real -> real, x: real, y: real, hl: real, hl': real, ceiling: real)
    requires IsHalving(halve) && 0.0 <= x <= y && 0.0 < hl' <= hl && 0.0 < ceiling
    ensures Decayed(halve, ceiling, y, hl') <= Decayed(halve, ceiling, x, hl)
  {
    RatioMonotone(x, y, hl, hl');
    HalvingDecreases(halve, Ratio(x, hl), Ratio(y, hl'));
    ScaleBound(halve(Ratio(y, hl')), halve(Ratio(x, hl)), ceiling);
  }

  lemma ScaleBound(a: real, b: real, f: real)
    requires f > 0.0 && a <= b
    ensures f * a <= f * b
  {
  }

  lemma SensitiveHalfLife(c: Config, tier: Tier)
    requires ValidConfig(c) && tier != T0
    ensures HalfLife(c, tier, Sensitive).value <= HalfLife(c, tier, Normal).value
  {
    SecondsOrder(ReviewDays(c, tier).value, c.sensitiveFactor, 1.0);
  }

  /** Exactly one half-life after its last reaffirmation a row keeps exactly half its ceiling. */
  lemma TrustHalves(c: Config, tier: Tier, last: Time, ceiling: real, s: Sensitivity)
    requires ValidConfig(c) && tier != T0
    ensures CurrentTrust(c, tier, Some(last), last + HalfLife(c, tier, s).value, ceiling, s) == ceiling / 2.0
  {
    HalfLifePositive(c, tier, s);
    var hl := HalfLife(c, tier, s).value;
    assert Age(Some(last), last + hl) == hl;
    assert hl / hl == 1.0;
  }

  function Pow(x: real, n: nat): real { if n == 0 then 1.0 else x * Pow(x, n - 1) }

  lemma {:induction false} PowPositive(x: real, n: nat)
    requires 0.0 < x
    ensures 0.0 < Pow(x, n)
  {
    if n == 0 {
    } else {
      PowPositive(x, n - 1);
    }
  }

  lemma {:induction false} PowOrder(x: real, y: real, n: nat)
    requires 0.0 < x < y && n > 0
    ensures Pow(x, n) < Pow(y, n)
  {
    PowPositive(x, n - 1);
    PowPositive(y, n - 1);
    var p, q := Pow(x, n - 1), Pow(y, n - 1);
    ScaleOrder(x, y, p);
    if n > 1 {
      PowOrder(x, y, n - 1);
      ScaleOrder(p, q, y);
    }
  }

  lemma {:induction false} PowProduct(x: real, y: real, z: real, n: nat)
    requires z == x * y
    ensures Pow(z, n) == Pow(x, n) * Pow(y, n)
  {
    if n == 0 {
    } else {
      PowProduct(x, y, z, n - 1);
      Regroup(x, y, z, Pow(x, n - 1), Pow(y, n - 1), Pow(z, n - 1));
    }
  }

  lemma Regroup(x: real, y: real, z: real, p: real, q: real, r: real)
    requires z == x * y && r == p * q
    ensures z * r == (x * p) * (y * q)
  {
    assert x * y * (p * q) == (x * p) * (y * q);
  }

  function ScaledPow(x: real, p: nat, n: nat): real { Pow(x, p) * Pow(2.0, n) }

  function Times(x: real, n: nat): real { if n == 0 then 0.0 else x + Times(x, n - 1) }

  lemma {:induction false} TimesIsProduct(x: real, n: nat)
    ensures Times(x, n) == n as real * x
  {
    if n == 0 {
    } else {
      TimesIsProduct(x, n - 1);
      SuccessorTimes(n, x);
    }
  }

  /** Raising 0.5 ** x to the n-th power multiplies the exponent by n. */
  lemma {:induction false} HalvingPower(halve: real -> real, x: real, n: nat)
    requires IsHalving(halve) && 0.0 <= x
    ensures 0.0 <= Times(x, n) && Pow(halve(x), n) == halve(Times(x, n))
  {
    if n == 0 {
      HalvingSum(halve, 0.0, 1.0);
    } else {
      HalvingPower(halve, x, n - 1);
      HalvingSum(halve, x, Times(x, n - 1));
    }
  }

  /**
   * The demotion test in exact arithmetic: with a half-life of p/q seconds and an age of
   * `age` seconds, the score is below the floor iff ceiling^p < floor^p * 2^(age*q).
   */
  lemma BelowFloorExactly(c: Config, tier: Tier, last: Time, age: nat, ceiling: real, s: Sensitivity,
                          hl: real, p: nat, q: nat)
    requires ValidConfig(c) && HalfLife(c, tier, s) == Some(hl) && 0.0 < ceiling
    requires p > 0 && q > 0 && hl * q as real == p as real
    ensures CurrentTrust(c, tier, Some(last), last + age as real, ceiling, s) < c.demoteFloor
            <==> Pow(ceiling, p) < ScaledPow(c.demoteFloor, p, age * q)
  {
    HalfLifePositive(c, tier, s);
    assert Age(Some(last), last + age as real) == age as real;
    ScaledExponent(age, hl, p, q);
    var score := CurrentTrust(c, tier, Some(last), last + age as real, ceiling, s);
    ScoreBelow(c.halve, ceiling, score, c.demoteFloor, Ratio(age as real, hl), p, age * q);
  }

  lemma ScoreBelow(halve: real -> real, ceiling: real, score: real, floor: real, x: real, p: nat, n: nat)
    requires IsHalving(halve) && 0.0 < ceiling && 0.0 < floor && score == ceiling * halve(x)
    requires 0.0 <= x && p > 0 && Times(x, p) == n as real
    ensures score < floor <==> Pow(ceiling, p) < ScaledPow(floor, p, n)
  {
    Shrink(ceiling, halve(x));
    HalvingCancels(halve, x, p, n);
    ScorePower(ceiling, halve(x), score, p, n);
    PowOrderScaled(score, floor, p, n);
  }

  lemma ScorePower(ceiling: real, h: real, score: real, p: nat, n: nat)
    requires score == ceiling * h && ScaledPow(h, p, n) == 1.0
    ensures ScaledPow(score, p, n) == Pow(ceiling, p)
  {
    PowProduct(ceiling, h, score, p);
    CancelFactor(Pow(ceiling, p), Pow(h, p), Pow(score, p), Pow(2.0, n));
  }

  lemma HalvingCancels(halve: real -> real, x: real, p: nat, n: nat)
    requires IsHalving(halve) && 0.0 <= x && Times(x, p) == n as real
    ensures ScaledPow(halve(x), p, n) == 1.0
  {
    HalvingPower(halve, x, p);
    HalvingWhole(halve, n);
  }

  lemma PowOrderScaled(x: real, y: real, p: nat, n: nat)
    requires 0.0 < x && 0.0 < y && p > 0
    ensures x < y <==> ScaledPow(x, p, n) < ScaledPow(y, p, n)
  {
    PowPositive(2.0, n);
    ScaleOrder(Pow(x, p), Pow(y, p), Pow(2.0, n));
    if x < y {
      PowOrder(x, y, p);
    } else if y < x {
      PowOrder(y, x, p);
    }
  }

  lemma CancelFactor(a: real, h: real, s: real, t: real)
    requires h * t == 1.0 && s == a * h
    ensures s * t == a
  {
    assert a * h * t == a * (h * t);
  }

  lemma ScaledExponent(age: nat, hl: real, p: nat, q: nat)
    requires hl > 0.0 && hl * q as real == p as real
    ensures 0.0 <= Ratio(age as real, hl) && Times(Ratio(age as real, hl), p) == (age * q) as real
  {
    TimesIsProduct(Ratio(age as real, hl), p);
    var x := age as real / hl;
    assert x * hl == age as real;
    calc {
      p as real * x;
      hl * q as real * x;
      x * hl * q as real;
      age as real * q as real;
      (age * q) as real;
    }
  }

  lemma {:induction false} HalvingWhole(halve: real -> real, n: nat)
    requires IsHalving(halve)
    ensures halve(n as real) * Pow(2.0, n) == 1.0
  {
    if n == 0 {
      assert Splits(halve, 0.0, 1.0);
    } else {
      HalvingWhole(halve, n - 1);
      HalvingSum(halve, 1.0, (n - 1) as real);
      var h, p := halve((n - 1) as real), Pow(2.0, n - 1);
      assert 1.0 + (n - 1) as real == n as real;
      assert 0.5 * h * (2.0 * p) == h * p;
    }
  }
}
