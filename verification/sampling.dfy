/** Stride sampling: one frequency bin is read per bar. */
module Sampling {
  import opened SpectrumTypes

  /** Natural-number division by repeated subtraction. */
  function Quotient(a: nat, b: nat): nat
    requires b > 0
    decreases a
  {
    if a < b then 0 else 1 + Quotient(a - b, b)
  }

  /** `Quotient` is floor division: the quotient times the divisor lands in
      the divisor-wide window ending at `a`. */
  lemma {:induction false} QuotientBounds(a: nat, b: nat)
    requires b > 0
    ensures Quotient(a, b) * b <= a < (Quotient(a, b) + 1) * b
    decreases a
  {
    if a >= b {
      QuotientBounds(a - b, b);
    }
  }

  /** The stride between sampled bins, `Math.round(len / meterCount)`,
      computed on naturals as the floor of `(2 len + meterCount) / (2 meterCount)`. */
  function Step(len: nat, meterCount: nat): (s: nat)
    requires meterCount > 0
    ensures s * (2 * meterCount) <= 2 * len + meterCount < (s + 1) * (2 * meterCount)
  {
    QuotientBounds(2 * len + meterCount, 2 * meterCount);
    Quotient(2 * len + meterCount, 2 * meterCount)
  }

  /** The stride is the natural number nearest to `len / meterCount`, halves
      rounding up, which is what `Math.round` returns for a non-negative ratio. */
  lemma StepRoundsHalfUp(len: nat, meterCount: nat)
    requires meterCount > 0
    ensures (Step(len, meterCount) as real) - 0.5
      <= (len as real) / (meterCount as real)
      < (Step(len, meterCount) as real) + 0.5
  {
    QuotientBounds(2 * len + meterCount, 2 * meterCount);
    RoundHalfUp(len, meterCount, Step(len, meterCount));
  }

  /** Integer division by `2m` of `2len + m` is rounding `len / m` half up. */
  lemma RoundHalfUp(len: nat, m: nat, s: nat)
    requires m > 0
    requires s * (2 * m) <= 2 * len + m < (s + 1) * (2 * m)
    ensures (s as real) - 0.5 <= (len as real) / (m as real) < (s as real) + 0.5
  {
    var M := m as real;
    var L := len as real;
    var S := s as real;
    var q := L / M;
    assert q * M == L;
    assert S * (2.0 * M) <= 2.0 * L + M by {
      assert (s * (2 * m)) as real == S * (2.0 * M);
    }
    assert 2.0 * L + M < (S + 1.0) * (2.0 * M) by {
      assert ((s + 1) * (2 * m)) as real == (S + 1.0) * (2.0 * M);
    }
    NonPositiveFactor(S - 0.5 - q, M);
    NonPositiveFactor(q - S - 0.5, M);
  }

  /** A product with a positive factor has the sign of the other factor. */
  lemma NonPositiveFactor(x: real, M: real)
    requires M > 0.0
    ensures x * M <= 0.0 ==> x <= 0.0
    ensures x * M < 0.0 ==> x < 0.0
  {
  }

  /** The frequency-array index bar `i` reads. */
  function SampleIndex(len: nat, meterCount: nat, i: nat): nat
    requires meterCount > 0
  {
    i * Step(len, meterCount)
  }

  /** One read of the frequency array; past the end it is undefined. */
  function Read(bins: seq<Byte>, k: nat): (r: Reading)
    ensures r.Value? <==> k < |bins|
    ensures r.Value? ==> r.v == bins[k]
  {
    if k < |bins| then Value(bins[k]) else Undefined
  }

  /** The reading of each bar, in bar order. */
  function Sample(bins: seq<Byte>, meterCount: nat): (r: seq<Reading>)
    ensures |r| == meterCount
  {
    seq(meterCount, i requires 0 <= i < meterCount => Read(bins, SampleIndex(|bins|, meterCount, i)))
  }

  /** Every bar reads inside the array: the last sampled index is below `len`. */
  predicate InBounds(len: nat, meterCount: nat) {
    meterCount == 0 || (meterCount - 1) * Step(len, meterCount) < len
  }

  /** Within bounds, bar i reads exactly bin `i * step`, and no read is
      undefined; out of bounds, some bar (the last) reads undefined. */
  lemma SampleReadsStride(bins: seq<Byte>, meterCount: nat)
    ensures InBounds(|bins|, meterCount) ==>
      forall i :: 0 <= i < meterCount ==>
        SampleIndex(|bins|, meterCount, i) < |bins| &&
        Sample(bins, meterCount)[i] == Value(bins[SampleIndex(|bins|, meterCount, i)])
    ensures !InBounds(|bins|, meterCount) ==> Sample(bins, meterCount)[meterCount - 1] == Undefined
  {
    if InBounds(|bins|, meterCount) && meterCount > 0 {
      var step := Step(|bins|, meterCount);
      forall i | 0 <= i < meterCount
        ensures SampleIndex(|bins|, meterCount, i) < |bins|
      {
        MulMonotone(i, meterCount - 1, step);
      }
    }
  }

  lemma MulMonotone(a: nat, b: nat, c: nat)
    requires a <= b
    ensures a * c <= b * c
  {
  }

  /** Dividing both sides of a strict inequality by a positive factor. */
  lemma CancelPositive(a: nat, b: nat, c: nat)
    requires c > 0 && c * a < c * b
    ensures a < b
  {
    if b <= a {
      MulMonotone(b, a, c);
    }
  }

  /** The arithmetic behind `InBoundsWhenFewBars`, on plain naturals:
      `2m(m-1)s <= (m-1)(2len+m) = 2m len - 2len + m(m-1) < 2m len`. */
  lemma FewBarsArithmetic(len: nat, m: nat, s: nat)
    requires 0 < m && m * (m - 1) < 2 * len
    requires 2 * m * s <= 2 * len + m
    ensures (m - 1) * s < len
  {
    var k := m - 1;
    var t := 2 * m;
    var ks := k * s;
    var scaled := t * ks;
    var bound := k * (2 * len + m);
    assert scaled <= bound by {
      MulMonotone(t * s, 2 * len + m, k);
      MulRearrange(t, s, k);
    }
    assert bound < t * len by {
      Expand(len, m);
    }
    CancelPositive(ks, len, t);
  }

  lemma MulRearrange(t: nat, s: nat, k: nat)
    ensures (t * s) * k == t * (k * s)
  {
  }

  lemma Expand(len: nat, m: nat)
    requires m > 0
    ensures (m - 1) * (2 * len + m) == 2 * m * len - 2 * len + m * (m - 1)
  {
  }

  /** A sufficient condition for in-bounds sampling: `m * (m - 1) < 2 * len`.
      Rounding up can add at most half a bin per bar, which this leaves room for. */
  lemma InBoundsWhenFewBars(len: nat, meterCount: nat)
    requires 0 < meterCount && meterCount * (meterCount - 1) < 2 * len
    ensures InBounds(len, meterCount)
  {
    var s := Step(len, meterCount);
    QuotientBounds(2 * len + meterCount, 2 * meterCount);
    assert 2 * meterCount * s <= 2 * len + meterCount;
    FewBarsArithmetic(len, meterCount, s);
  }

  /** 1024 bins over 4 bars read exactly bins 0, 256, 512 and 768. */
  lemma FourBarsOf1024(bins: seq<Byte>)
    requires |bins| == 1024
    ensures Step(1024, 4) == 256
    ensures Sample(bins, 4) == [Value(bins[0]), Value(bins[256]), Value(bins[512]), Value(bins[768])]
  {
    QuotientBounds(2052, 8);
  }

  /** The default props (160 bars) over the 1024 bins of a 2048-point
      analyser read in bounds, with a stride of 6. */
  lemma DefaultPropsInBounds()
    ensures Step(1024, 160) == 6
    ensures InBounds(1024, 160)
  {
    QuotientBounds(2208, 320);
  }

  /** Rounding the stride up can run past the array: 55 bars over 1024 bins
      give a stride of 19, so the last bar reads index 1026, which is undefined. */
  lemma FiftyFiveBarsOverrun(bins: seq<Byte>)
    requires |bins| == 1024
    ensures Step(1024, 55) == 19
    ensures SampleIndex(1024, 55, 54) == 1026
    ensures !InBounds(1024, 55)
    ensures Sample(bins, 55)[54] == Undefined
  {
    QuotientBounds(2103, 110);
  }
}
