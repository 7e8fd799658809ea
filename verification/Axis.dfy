/** The vertical axis of the chart: a step of 1, 2 or 5 times a power of ten. */
module Axis {
  import opened Arith

  newtype Int32 = x: int | INT_MIN <= x <= INT_MAX

  predicate PowerOfTen(b: nat)
  {
    b == 1 || (b > 0 && b % 10 == 0 && PowerOfTen(b / 10))
  }

  /** 1, 2 or 5 times a power of ten. */
  predicate Nice(s: nat)
  {
    s in {1, 2, 5} || (s > 0 && s % 10 == 0 && Nice(s / 10))
  }

  /** The least nice step that cuts vmax into fewer than six. */
  ghost predicate IsStep(vmax: nat, s: nat)
  {
    Nice(s) && vmax / s < 6 && forall t: nat :: Nice(t) && t < s ==> vmax / t >= 6
  }

  lemma {:induction false} NiceBetween(b: nat, s: nat)
    requires PowerOfTen(b) && Nice(s) && b <= s < 10 * b
    ensures s in {b, 2 * b, 5 * b}
  {
    if b != 1 { NiceBetween(b / 10, s / 10); }
  }

  lemma {:induction false} NiceTimes(b: nat)
    requires PowerOfTen(b)
    ensures Nice(b) && Nice(2 * b) && Nice(5 * b) && PowerOfTen(10 * b)
  {
    if b != 1 {
      NiceTimes(b / 10);
      assert (2 * b) / 10 == 2 * (b / 10) && (5 * b) / 10 == 5 * (b / 10);
    }
  }

  /** Powers of ten are a factor of ten apart. */
  lemma {:induction false} PowersApart(a: nat, b: nat)
    requires PowerOfTen(a) && PowerOfTen(b) && a < b
    ensures 10 * a <= b
  {
    if a != 1 { PowersApart(a / 10, b / 10); }
  }

  ghost predicate NoneBelow(vmax: nat, b: nat)
  {
    forall t: nat :: Nice(t) && t < b ==> vmax / t >= 6
  }

  /** Trying one decade: the first of base, 2 base, 5 base that is coarse enough is the step. */
  lemma Decade(vmax: nat, base: nat)
    requires base >= 1 && PowerOfTen(base) && NoneBelow(vmax, base)
    ensures vmax / base < 6 ==> IsStep(vmax, base)
    ensures vmax / base >= 6 && vmax / (base * 2) < 6 ==> IsStep(vmax, base * 2)
    ensures vmax / base >= 6 && vmax / (base * 2) >= 6 && vmax / (base * 5) < 6 ==> IsStep(vmax, base * 5)
    ensures vmax / base >= 6 && vmax / (base * 2) >= 6 && vmax / (base * 5) >= 6 ==>
              NoneBelow(vmax, base * 10) && PowerOfTen(base * 10) && base * 30 <= vmax
  {
    NiceTimes(base);
    forall t: nat | Nice(t) && base <= t < base * 10 ensures t in {base, base * 2, base * 5} {
      NiceBetween(base, t);
    }
    if vmax / (base * 5) >= 6 {
      DivBounds(vmax, base * 5);
      MulMono(6, vmax / (base * 5), base * 5);
    }
  }

  /** Below two thousand million the search stays under 10^9. */
  lemma SmallDecade(base: nat)
    requires PowerOfTen(base) && base < 100_000_000
    ensures base <= 10_000_000
  {
    assert PowerOfTen(100_000_000);
    PowersApart(base, 100_000_000);
  }

  /** The search in 32-bit arithmetic: every operation is checked against the range of int. */
  method AxisStep(vmax: Int32) returns (step: Int32, ymax: Int32)
    requires 0 <= vmax < 2_000_000_000
    ensures step >= 1 && IsStep(vmax as int, step as int)
    ensures ymax as int == (vmax as int / step as int + 1) * step as int
  {
    step := FindStep(vmax);
    StepFits(vmax as int, step as int);
    var q := vmax / step + 1;
    assert q as int == vmax as int / step as int + 1;
    MulMono(1, q as int, step as int);
    var top := q * step;
    ymax := if step > top then step else top;
  }

  method FindStep(vmax: Int32) returns (step: Int32)
    requires 0 <= vmax < 2_000_000_000
    ensures step >= 1 && IsStep(vmax as int, step as int)
  {
    var base: Int32 := 1;
    while true
      invariant 1 <= base <= 100_000_000 && PowerOfTen(base as int) && NoneBelow(vmax as int, base as int)
      decreases 100_000_000 - base as int
    {
      var found;
      found, step := TryDecade(vmax, base);
      if found { return; }
      SmallDecade(base as int);
      base := base * 10;
    }
  }

  /** The test of the search; the quotient of 32-bit numbers is that of the integers. */
  method FewLines(vmax: Int32, step: Int32) returns (few: bool)
    requires 0 <= vmax && 1 <= step
    ensures few <==> vmax as int / step as int < 6
  {
    few := vmax / step < 6;
  }

  /** The inner loop over 1, 2 and 5. */
  method TryDecade(vmax: Int32, base: Int32) returns (found: bool, step: Int32)
    requires 0 <= vmax < 2_000_000_000 && 1 <= base <= 100_000_000
    requires PowerOfTen(base as int) && NoneBelow(vmax as int, base as int)
    ensures found ==> step >= 1 && IsStep(vmax as int, step as int)
    ensures !found ==> NoneBelow(vmax as int, base as int * 10) && PowerOfTen(base as int * 10) && base < 100_000_000
  {
    Decade(vmax as int, base as int);
    step := base * 1;
    found := FewLines(vmax, step);
    if found { return; }
    step := base * 2;
    found := FewLines(vmax, step);
    if found { return; }
    step := base * 5;
    found := FewLines(vmax, step);
  }

  /** No nice number lies strictly between 2 * 10^8 and 5 * 10^8, nor between 5 * 10^8 and 10^9. */
  lemma NiceGap(s: nat)
    requires Nice(s) && 200_000_000 < s < 1_000_000_000
    ensures s == 500_000_000
  {
    assert PowerOfTen(100_000_000);
    NiceBetween(100_000_000, s);
  }

  /** The axis fits 32 bits exactly below two thousand million viewers: from there on the computation of
      ymax overflows. */
  lemma StepFits(vmax: nat, s: nat)
    requires vmax <= INT_MAX && IsStep(vmax, s)
    ensures s <= 500_000_000
    ensures (vmax / s + 1) * s <= INT_MAX <==> vmax < 2_000_000_000
  {
    assert Nice(500_000_000);
    assert s <= 500_000_000;
    if s > 200_000_000 {
      NiceGap(s);
    } else {
      MulMono(vmax / s + 1, 6, s);
      DivBounds(vmax, s);
    }
  }

  /** What the axis looks like: it ends on a grid line above the greatest value, with at most six lines, and
      at least three once there are six viewers. */
  lemma AxisShape(vmax: nat, s: nat)
    requires IsStep(vmax, s)
    ensures var ymax := (vmax / s + 1) * s;
            && ymax % s == 0 && vmax < ymax && ymax / s <= 6
            && (vmax >= 6 ==> ymax / s >= 3)
  {
    DivBounds(vmax, s);
    DivIs((vmax / s + 1) * s, s, vmax / s + 1);
    if vmax >= 6 { TwoLines(vmax, s); }
  }

  lemma TwoLines(vmax: nat, s: nat)
    requires IsStep(vmax, s) && vmax >= 6
    ensures vmax / s >= 2
  {
    assert s > 1;
    var t := if s == 2 then 1 else 2;
    if s > 5 { t := NiceUnder(s); }
    assert Nice(t) && t < s && 5 * t >= 2 * s;
    DivBounds(vmax, t);
    MulMono(6, vmax / t, t);
    DivAtLeast(vmax, s, 2);
  }

  /** A nice number above 5 has a nice predecessor of at least two fifths of it. */
  lemma {:induction false} NiceUnder(s: nat) returns (t: nat)
    requires Nice(s) && s > 5
    ensures Nice(t) && t < s && 5 * t >= 2 * s
  {
    var u := s / 10;
    if u in {1, 2, 5} {
      t := if u == 1 then 5 else if u == 2 then 10 else 20;
    } else {
      var v := NiceUnder(u);
      t := 10 * v;
    }
  }
}
