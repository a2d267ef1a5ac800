/** What a number literal is worth, and the ledger amount it names, in whole numbers. */
module Decimals {
  import opened Basics
  import opened Json
  import opened Pricing

  // ------------------------------------------------------------ powers of ten

  lemma {:induction false} Pow10Adds(a: nat, b: nat)
    ensures Pow10(0) == 1 && Pow10(1) == 10
    ensures Pow10(a + b) == Pow10(a) * Pow10(b)
  {
    if a > 0 {
      Pow10Adds(a - 1, b);
      TimesTen(Pow10(a - 1), Pow10(b));
      assert Pow10(a + b) == 10 * Pow10(a - 1 + b);
    }
  }

  lemma TimesTen(x: nat, y: nat)
    ensures 10 * (x * y) == (10 * x) * y
  {}

  function P(k: nat): (p: real)
    ensures p >= 1.0
  {
    Pow10(k) as real
  }

  lemma PAdds(a: nat, b: nat)
    ensures P(0) == 1.0 && P(a + b) == P(a) * P(b)
  {
    Pow10Adds(a, b);
    hide Pow10;
    IntTimes(Pow10(a), Pow10(b));
  }

  lemma IntTimes(x: int, p: nat)
    ensures (x * p) as real == x as real * p as real
  {}

  lemma PTen()
    ensures P(10) == 10000000000.0
  {
    assert Pow10(5) == 100000;
    Pow10Adds(5, 5);
  }

  // ----------------------------------------------------------------- literals

  lemma Quotient(x: real, y: real)
    requires y > 0.0
    ensures x / y * y == x
    ensures x >= 0.0 ==> x / y >= 0.0 && (x / y == 0.0 <==> x == 0.0)
    ensures x * 1.0 == x
  {
    if x > 0.0 { assert x / y * y > 0.0; }
  }

  lemma Product(x: real, y: real)
    requires y > 0.0 && x >= 0.0
    ensures x * y >= 0.0 && (x * y == 0.0 <==> x == 0.0)
  {}

  /** A plain literal is its digits over a power of ten. */
  lemma PlainValue(d: nat, s: nat)
    ensures Value(Number(false, d, s, None)) * Pow10(s) as real == d as real
  {
    hide Pow10;
    Quotient(d as real, Pow10(s) as real);
  }

  /** A written exponent moves the value by a power of ten, either way. */
  lemma MovedValue(d: nat, s: nat, k: nat)
    ensures Value(Number(false, d, s, Some(k))) == Value(Number(false, d, s, None)) * Pow10(k) as real
    ensures var below: int := -(k as int);
            Value(Number(false, d, s, Some(below))) * Pow10(k) as real == Value(Number(false, d, s, None))
  {
    Pow10Adds(0, 0);
    hide Pow10;
    Quotient(d as real / Pow10(s) as real, Pow10(k) as real);
  }

  /** The sign negates the value, and an unsigned value is zero exactly when its digits are. */
  lemma SignedValue(d: nat, s: nat, e: Option<int>)
    ensures Value(Number(true, d, s, e)) == -Value(Number(false, d, s, e))
    ensures Value(Number(false, d, s, e)) >= 0.0 && (Value(Number(false, d, s, e)) == 0.0 <==> d == 0)
  {
    hide Pow10;
    var plain := d as real / Pow10(s) as real;
    Quotient(d as real, Pow10(s) as real);
    if e.Some? && e.value >= 0 { Product(plain, Pow10(e.value) as real); }
    if e.Some? && e.value < 0 { Quotient(plain, Pow10(-e.value) as real); }
  }

  /** A product, kept as one term. */
  function Times(x: real, y: real): real {
    x * y
  }

  lemma Swap(x: real, y: real, z: real)
    ensures Times(Times(x, y), z) == Times(Times(x, z), y) == Times(x, Times(y, z))
  {}

  lemma Cancel(x: real, y: real, p: real)
    requires p > 0.0 && Times(x, p) == Times(y, p)
    ensures x == y
  {}

  lemma PTimes(a: nat, b: nat)
    ensures P(a + b) == Times(P(a), P(b))
  {
    PAdds(a, b);
    hide P;
  }

  /** `v a == d b` and `b t == shift a`: `v t` is `d shift`. */
  lemma MoveUp(v: real, a: real, d: real, b: real, t: real, shift: real)
    requires a > 0.0 && Times(v, a) == Times(d, b) && Times(b, t) == Times(shift, a)
    ensures Times(v, t) == Times(d, shift)
  {
    hide Times;
    Swap(v, t, a);
    Swap(d, b, t);
    Swap(d, shift, a);
    Cancel(Times(v, t), Times(d, shift), a);
  }

  /** `v a == d b` and `a == b t shift`: `v t shift` is `d`. */
  lemma MoveDown(v: real, a: real, d: real, b: real, t: real, shift: real)
    requires b > 0.0 && Times(v, a) == Times(d, b) && a == Times(Times(b, t), shift)
    ensures Times(Times(v, t), shift) == d
  {
    hide Times;
    Swap(b, t, shift);
    Swap(v, b, Times(t, shift));
    Swap(v, t, shift);
    Cancel(Times(Times(v, t), shift), d, b);
  }

  function Exponent(n: Number): int {
    if n.exponent.Some? then n.exponent.value else 0
  }

  lemma PlainTimes(d: nat, s: nat)
    ensures Times(Value(Number(false, d, s, None)), P(s)) == d as real
  {
    PlainValue(d, s);
    hide Value, Pow10;
  }

  lemma MovedTimes(d: nat, s: nat, k: nat)
    ensures Value(Number(false, d, s, Some(k))) == Times(Value(Number(false, d, s, None)), P(k))
    ensures var below: int := -(k as int);
            Times(Value(Number(false, d, s, Some(below))), P(k)) == Value(Number(false, d, s, None))
  {
    MovedValue(d, s, k);
    hide Value, Pow10;
  }

  lemma TimesOne(x: real)
    ensures Times(x, P(0)) == x
  {
    Pow10Adds(0, 0);
  }

  /** The powers of ten on either side of a literal's value. */
  lemma ValueOverPowers(n: Number)
    requires !n.negative
    ensures var e := Exponent(n);
            if e >= 0 then Times(Value(n), P(n.scale)) == Times(n.digits as real, P(e))
            else Times(Value(n), P(n.scale - e)) == Times(n.digits as real, P(0))
  {
    hide Value, Pow10, P, Times;
    var e := Exponent(n);
    var size: nat := if e >= 0 then e else -e;
    var plain := Value(Number(false, n.digits, n.scale, None));
    PlainTimes(n.digits, n.scale);
    MovedTimes(n.digits, n.scale, size);
    TimesOne(n.digits as real);
    if n.exponent.None? {
      assert n == Number(false, n.digits, n.scale, None);
    } else if e >= 0 {
      assert n == Number(false, n.digits, n.scale, Some(size));
      Swap(plain, P(size), P(n.scale));
    } else {
      var below: int := -(size as int);
      assert n == Number(false, n.digits, n.scale, Some(below));
      PTimes(size, n.scale);
      Swap(Value(n), P(size), P(n.scale));
      assert n.scale - e == size + n.scale;
    }
  }

  /** The power of ten that takes the digits of a literal to ledger units of 10^-10. */
  function Shift(n: Number): int {
    10 - n.scale + if n.exponent.Some? then n.exponent.value else 0
  }

  /** The literal is not negative, and `units` is the nearest whole number of 10^-10, the larger one on a tie. */
  predicate NamesUnits(n: Number, units: nat) {
    && (n.negative ==> n.digits == 0)
    && var shift := Shift(n);
       if shift >= 0 then units == n.digits * Pow10(shift)
       else (2 * units - 1) * Pow10(-shift) <= 2 * n.digits < (2 * units + 1) * Pow10(-shift)
  }

  lemma ValueInUnits(n: Number)
    requires !n.negative
    ensures var amount, shift := Times(Value(n), 10000000000.0), Shift(n);
            if shift >= 0 then amount == Times(n.digits as real, P(shift))
            else Times(amount, P(-shift)) == n.digits as real
  {
    var e, shift, digits := Exponent(n), Shift(n), n.digits as real;
    var up: nat, down: nat := if e >= 0 then e else 0, if e >= 0 then n.scale else n.scale - e;
    hide Value, Pow10, P, Times;
    ValueOverPowers(n);
    PTen();
    PTimes(up, 10);
    if shift >= 0 {
      PTimes(shift, down);
      assert up + 10 == shift + down;
      MoveUp(Value(n), P(down), digits, P(up), 10000000000.0, P(shift));
    } else {
      PTimes(up + 10, -shift);
      assert down == up + 10 + -shift;
      MoveDown(Value(n), P(down), digits, P(up), 10000000000.0, P(-shift));
    }
  }

  lemma HalfOpen(x: real, low: real, high: real, p: real)
    requires p > 0.0
    ensures low <= x < high <==> Times(low, p) <= Times(x, p) < Times(high, p)
  {
    hide Times;
    TimesKeepsOrder(low, x, p);
    TimesKeepsOrder(high, x, p);
  }

  lemma TimesKeepsOrder(x: real, y: real, p: real)
    requires p > 0.0
    ensures x <= y <==> Times(x, p) <= Times(y, p)
  {
    var d := y - x;
    assert Times(y, p) - Times(x, p) == d * p;
    if d >= 0.0 {
      assert d * p >= 0.0;
    } else {
      assert d * p < 0.0;
    }
  }

  lemma IntProduct(x: int, p: nat)
    ensures Times(x as real, p as real) == (x * p) as real
  {
    IntTimes(x, p);
  }

  lemma FloorIsUnits(amount: real, units: nat)
    ensures (amount + 0.5).Floor == units <==> (2 * units - 1) as real <= 2.0 * amount < (2 * units + 1) as real
  {}

  lemma TwiceTimes(x: real, p: real)
    ensures Times(2.0 * x, p) == 2.0 * Times(x, p)
  {}

  /** Rounding an exact amount, in whole numbers. */
  lemma FloorInUnits(amount: real, digits: nat, p: nat, units: nat)
    requires p > 0 && Times(amount, p as real) == digits as real
    ensures (amount + 0.5).Floor == units <==> (2 * units - 1) * p <= 2 * digits < (2 * units + 1) * p
  {
    var low: int, high: int := 2 * units - 1, 2 * units + 1;
    FloorIsUnits(amount, units);
    HalfOpen(2.0 * amount, low as real, high as real, p as real);
    IntProduct(low, p);
    IntProduct(high, p);
    TwiceTimes(amount, p as real);
    hide Times;
  }

  /** The value of a literal rounds to exactly the amount that its digits name. */
  lemma NamesUnitsExactly(n: Number, units: nat)
    ensures NormalizeCost(Value(n)) == Some(units) <==> NamesUnits(n, units)
  {
    var plain := Number(false, n.digits, n.scale, n.exponent);
    assert n == Number(n.negative, n.digits, n.scale, n.exponent);
    SignedValue(n.digits, n.scale, n.exponent);
    ValueInUnits(plain);
    assert Shift(plain) == Shift(n);
    hide Value, Pow10, P, Times, NormalizeCost;
    NegativeIsRejected(Value(n), units);
    if !(n.negative && n.digits > 0) {
      assert Value(n) == Value(plain);
      RoundsTo(Value(plain), n.digits, Shift(n), units);
    }
  }

  lemma NegativeIsRejected(usd: real, units: nat)
    ensures usd < 0.0 ==> NormalizeCost(usd) != Some(units)
  {}

  lemma RoundsTo(value: real, digits: nat, shift: int, units: nat)
    requires value >= 0.0
    requires var amount := Times(value, 10000000000.0);
             if shift >= 0 then amount == Times(digits as real, P(shift))
             else Times(amount, P(-shift)) == digits as real
    ensures NormalizeCost(value) == Some(units) <==>
            if shift >= 0 then units == digits * Pow10(shift)
            else (2 * units - 1) * Pow10(-shift) <= 2 * digits < (2 * units + 1) * Pow10(-shift)
  {
    NormalizeIsFloor(value);
    hide Pow10, NormalizeCost, Times;
    if shift >= 0 {
      IntProduct(digits, Pow10(shift));
    } else {
      FloorInUnits(Times(value, 10000000000.0), digits, Pow10(-shift), units);
    }
  }

  lemma NormalizeIsFloor(value: real)
    requires value >= 0.0
    ensures (Times(value, 10000000000.0) + 0.5).Floor >= 0
    ensures NormalizeCost(value) == Some((Times(value, 10000000000.0) + 0.5).Floor)
  {}
}
