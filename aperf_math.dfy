/**
 * The arithmetic of utils/aperf.c: the average frequency from APERF/MPERF
 * deltas (get_average_perf) and the split of an interval into C0 and Cx time
 * (get_C_state_time), in the C types the tool uses: `unsigned long` and
 * `uint64_t` wrap modulo 2^64, `unsigned int` keeps the low 32 bits, and the
 * `struct timeval` fields are signed longs.
 */
module AperfMath {
  import opened CTypes

  const I64_MIN: int := -0x8000_0000_0000_0000
  const I64_MAX: int := 0x7FFF_FFFF_FFFF_FFFF

  /** struct timeval. In the C-state results the second field holds milliseconds. */
  datatype Timeval = Timeval(sec: int, usec: int)

  /** An interval as timersub leaves it, whose microsecond count fits a signed long. */
  predicate ElapsedOk(t: Timeval)
  {
    0 <= t.usec < 1000000 && I64_MIN <= t.sec * 1000000 + t.usec <= I64_MAX
  }

  /** C division of a signed long by 1000: truncation toward zero. */
  function TruncDiv1000(a: int): (q: int)
    ensures a >= 0 ==> 0 <= q && q * 1000 <= a < q * 1000 + 1000
    ensures a < 0 ==> q <= 0 && q * 1000 - 1000 < a <= q * 1000
  {
    if a >= 0 then a / 1000 else -((-a) / 1000)
  }

  /** overall_msecs: the interval in whole milliseconds, as an unsigned long long. */
  function OverallMsecs(t: Timeval): (r: u64)
    requires ElapsedOk(t)
    ensures t.sec >= 0 ==> r * 1000 <= t.sec * 1000000 + t.usec < r * 1000 + 1000
  {
    Wrap64(TruncDiv1000(t.sec * 1000000 + t.usec))
  }

  /** expected_ticks: the MPERF ticks a CPU in C0 for the whole interval would count. */
  function ExpectedTicks(maxFreq: u64, overallMsecs: u64): (r: u64)
    ensures r != 0 ==> maxFreq != 0 && overallMsecs != 0
  {
    Wrap64(maxFreq * overallMsecs)
  }

  /** Without wrap-around the expected ticks are the exact product. */
  lemma ExpectedTicksExact(maxFreq: u64, overallMsecs: u64)
    requires maxFreq * overallMsecs < TWO64
    ensures ExpectedTicks(maxFreq, overallMsecs) == maxFreq * overallMsecs
  {
  }

  /** The millisecond count a result timeval stands for. */
  function Millis(t: Timeval): int
  {
    t.sec * 1000 + t.usec
  }

  /** A millisecond count split into seconds and milliseconds. */
  function MsTime(ms: u64): (t: Timeval)
    ensures Millis(t) == ms && 0 <= t.usec < 1000 && 0 <= t.sec
  {
    Timeval(ms / 1000, ms % 1000)
  }

  /** The three outputs of get_C_state_time. */
  datatype CState = CState(c0: Timeval, cx: Timeval, percent: u32)

  /** *percent: MPERF's ticks as a percentage of the expected ticks, truncated to unsigned int. */
  function C0Percent(mperf: u64, expected: u64): u32
    requires expected != 0
  {
    DivLe(Wrap64(mperf * 100), expected);
    Wrap32(Wrap64(mperf * 100) / expected)
  }

  /** c0_time: MPERF's ticks at maximum frequency, in milliseconds. */
  function C0Millis(mperf: u64, maxFreq: u64): u64
    requires maxFreq != 0
  {
    DivLe(mperf, maxFreq);
    mperf / maxFreq
  }

  /** cx_time: the ticks MPERF missed, at maximum frequency, in milliseconds. */
  function CxMillis(mperf: u64, expected: u64, maxFreq: u64): u64
    requires maxFreq != 0
  {
    DivLe(Wrap64(expected - mperf), maxFreq);
    Wrap64(expected - mperf) / maxFreq
  }

  /**
   * get_C_state_time. Neither division is guarded in the tool: the interval
   * must give a nonzero tick count (which also makes maxFreq nonzero).
   */
  function CStateTime(elapsed: Timeval, mperf: u64, maxFreq: u64): (r: CState)
    requires ElapsedOk(elapsed) && ExpectedTicks(maxFreq, OverallMsecs(elapsed)) != 0
    ensures 0 <= r.c0.usec < 1000 && 0 <= r.cx.usec < 1000
  {
    var expected := ExpectedTicks(maxFreq, OverallMsecs(elapsed));
    CState(MsTime(C0Millis(mperf, maxFreq)), MsTime(CxMillis(mperf, expected, maxFreq)),
           C0Percent(mperf, expected))
  }

  /**
   * When MPERF counted no more than the expected ticks, the C0 share is at
   * most 100 percent, and when mperf*100 does not wrap it is the floor of
   * 100*mperf/expected.
   */
  lemma CStatePercent(elapsed: Timeval, mperf: u64, maxFreq: u64)
    requires ElapsedOk(elapsed) && ExpectedTicks(maxFreq, OverallMsecs(elapsed)) != 0
    requires mperf <= ExpectedTicks(maxFreq, OverallMsecs(elapsed))
    ensures CStateTime(elapsed, mperf, maxFreq).percent <= 100
    ensures mperf * 100 < TWO64 ==>
              var e := ExpectedTicks(maxFreq, OverallMsecs(elapsed));
              var p := CStateTime(elapsed, mperf, maxFreq).percent;
              p * e <= mperf * 100 < p * e + e
  {
    var e := ExpectedTicks(maxFreq, OverallMsecs(elapsed));
    C0PercentBound(mperf, e);
    assert CStateTime(elapsed, mperf, maxFreq).percent == C0Percent(mperf, e);
  }

  lemma C0PercentBound(mperf: u64, e: u64)
    requires e != 0 && mperf <= e
    ensures C0Percent(mperf, e) <= 100
    ensures mperf * 100 < TWO64 ==> C0Percent(mperf, e) * e <= mperf * 100 < C0Percent(mperf, e) * e + e
  {
    var w := Wrap64(mperf * 100);
    assert w <= 100 * e by {
      if mperf * 100 < TWO64 {
        assert w == mperf * 100;
      }
    }
    PercentFacts(w, e);
    assert C0Percent(mperf, e) == w / e;
  }

  /**
   * When MPERF counted no more than the expected ticks and expected_ticks did
   * not wrap, C0 time is MPERF's ticks at maximum frequency, and C0 plus Cx
   * time cover the interval to within one millisecond (each is rounded down).
   */
  lemma CStateSplit(elapsed: Timeval, mperf: u64, maxFreq: u64)
    requires ElapsedOk(elapsed) && ExpectedTicks(maxFreq, OverallMsecs(elapsed)) != 0
    requires mperf <= ExpectedTicks(maxFreq, OverallMsecs(elapsed))
    requires maxFreq * OverallMsecs(elapsed) < TWO64
    ensures var r := CStateTime(elapsed, mperf, maxFreq);
            Millis(r.c0) * maxFreq <= mperf < Millis(r.c0) * maxFreq + maxFreq
            && OverallMsecs(elapsed) - 1 <= Millis(r.c0) + Millis(r.cx) <= OverallMsecs(elapsed)
  {
    var o := OverallMsecs(elapsed);
    var e := ExpectedTicks(maxFreq, o);
    ExpectedTicksExact(maxFreq, o);
    SplitFacts(mperf, maxFreq, o);
    assert CxMillis(mperf, e, maxFreq) == (maxFreq * o - mperf) / maxFreq;
    assert C0Millis(mperf, maxFreq) == mperf / maxFreq;
    assert CStateTime(elapsed, mperf, maxFreq).c0 == MsTime(C0Millis(mperf, maxFreq));
    assert CStateTime(elapsed, mperf, maxFreq).cx == MsTime(CxMillis(mperf, e, maxFreq));
  }

  /**
   * When MPERF counted more than the expected ticks, expected - mperf wraps
   * modulo 2^64 and the Cx time comes out near 2^64 / maxFreq milliseconds.
   */
  lemma CStateOverrun(elapsed: Timeval, mperf: u64, maxFreq: u64)
    requires ElapsedOk(elapsed) && ExpectedTicks(maxFreq, OverallMsecs(elapsed)) != 0
    requires mperf > ExpectedTicks(maxFreq, OverallMsecs(elapsed))
    ensures Millis(CStateTime(elapsed, mperf, maxFreq).cx)
            == (TWO64 + ExpectedTicks(maxFreq, OverallMsecs(elapsed)) - mperf) / maxFreq
  {
    var e := ExpectedTicks(maxFreq, OverallMsecs(elapsed));
    CxOverrun(mperf, e, maxFreq);
    assert CStateTime(elapsed, mperf, maxFreq).cx == MsTime(CxMillis(mperf, e, maxFreq));
  }

  lemma CxOverrun(mperf: u64, e: u64, maxFreq: u64)
    requires maxFreq != 0 && mperf > e
    ensures CxMillis(mperf, e, maxFreq) == (TWO64 + e - mperf) / maxFreq
  {
    assert Wrap64(e - mperf) == TWO64 + e - mperf;
  }

  /** One second at 2 GHz (2000000 kHz) with MPERF counting 2*10^9 ticks: 100 % in C0, C0 1 s 0 ms, Cx 0. */
  lemma CStateExample(elapsed: Timeval, mperf: u64, maxFreq: u64)
    requires elapsed == Timeval(1, 0) && mperf == 2000000000 && maxFreq == 2000000
    ensures ElapsedOk(elapsed) && ExpectedTicks(maxFreq, OverallMsecs(elapsed)) != 0
    ensures CStateTime(elapsed, mperf, maxFreq) == CState(Timeval(1, 0), Timeval(0, 0), 100)
  {
    assert OverallMsecs(elapsed) == 1000;
    assert ExpectedTicks(maxFreq, 1000) == 2000000000;
    assert C0Percent(mperf, 2000000000) == 100;
    assert C0Millis(mperf, maxFreq) == 1000;
    assert CxMillis(mperf, 2000000000, maxFreq) == 0;
  }

  /**
   * An interval shorter than a millisecond, or a zero maximum frequency,
   * gives zero expected ticks: the division get_C_state_time does not guard.
   */
  lemma ZeroExpectedTicks(elapsed: Timeval, maxFreq: u64)
    requires ElapsedOk(elapsed)
    requires (elapsed.sec == 0 && elapsed.usec < 1000) || maxFreq == 0
    ensures ExpectedTicks(maxFreq, OverallMsecs(elapsed)) == 0
  {
    if maxFreq != 0 {
      assert OverallMsecs(elapsed) == 0;
    }
  }

  /** get_average_perf shifts both deltas when aperf_diff exceeds ULONG_MAX / 100. */
  const SHIFT_GUARD: int := ULONG_MAX / 100

  /**
   * The overflow guard of get_average_perf: both deltas shifted right by 7
   * exactly when the APERF delta is above the guard. Afterwards APERF*100
   * fits in 64 bits, and the order of the two deltas is kept.
   */
  function ShiftDiffs(aperf: u64, mperf: u64): (r: (u64, u64))
    ensures r.0 * 100 <= ULONG_MAX
    ensures r.0 <= aperf && r.1 <= mperf
    ensures aperf > SHIFT_GUARD ==> r.0 * 128 <= aperf < r.0 * 128 + 128 && r.1 * 128 <= mperf < r.1 * 128 + 128
    ensures aperf <= SHIFT_GUARD ==> r == (aperf, mperf)
    ensures aperf <= mperf ==> r.0 <= r.1
    ensures mperf <= aperf ==> r.1 <= r.0
  {
    if SHIFT_GUARD < aperf then (aperf / 128, mperf / 128) else (aperf, mperf)
  }

  /** perf_percent: APERF as a percentage of MPERF, truncated to unsigned int. */
  function PerfPercent(aperf: u64, mperf: u64): (r: u32)
    requires ShiftDiffs(aperf, mperf).1 != 0
    ensures var d := ShiftDiffs(aperf, mperf);
            d.0 * 100 / d.1 < TWO32 ==> r == d.0 * 100 / d.1
  {
    var (a, m) := ShiftDiffs(aperf, mperf);
    DivLe(a * 100, m);
    Wrap32(Wrap64(a * 100) / m)
  }

  /**
   * get_average_perf: the maximum frequency scaled by the APERF/MPERF
   * percentage. The division by the (shifted) MPERF delta is not guarded.
   */
  function AveragePerf(maxFreq: u64, aperf: u64, mperf: u64): (r: u64)
    requires ShiftDiffs(aperf, mperf).1 != 0
    ensures var d := ShiftDiffs(aperf, mperf);
            var percent := d.0 * 100 / d.1;
            percent < TWO32 && maxFreq * percent < TWO64 ==> r == maxFreq * percent / 100
    ensures r <= ULONG_MAX / 100
  {
    var d := ShiftDiffs(aperf, mperf);
    var p := PerfPercent(aperf, mperf);
    var w := Wrap64(maxFreq * p);
    ScaledNoWrap(maxFreq, d.0 * 100 / d.1, p, w);
    w / 100
  }

  /** The scaling step of get_average_perf when the percentage was not cut to 32 bits. */
  lemma ScaledNoWrap(maxFreq: u64, percent: int, p: u32, w: u64)
    requires percent < TWO32 ==> p == percent
    requires w == Wrap64(maxFreq * p)
    ensures percent < TWO32 && maxFreq * percent < TWO64 ==> w / 100 == maxFreq * percent / 100
    ensures w / 100 <= ULONG_MAX / 100
  {
    if percent < TWO32 && maxFreq * percent < TWO64 {
      MulMonoLeft(maxFreq, 0, p);
      assert Wrap64(maxFreq * p) == maxFreq * p;
    }
    DivRange(w, 100);
    DivRange(ULONG_MAX, 100);
  }

  /** A CPU that ran at maximum frequency all along (equal deltas) averages exactly maxFreq. */
  lemma AverageAtFullRate(maxFreq: u64, aperf: u64, mperf: u64)
    requires aperf == mperf && ShiftDiffs(aperf, mperf).1 != 0
    requires maxFreq * 100 < TWO64
    ensures AveragePerf(maxFreq, aperf, mperf) == maxFreq
  {
    var (a, m) := ShiftDiffs(aperf, mperf);
    QuotientUnique(a * 100, m, 100);
    assert PerfPercent(aperf, mperf) == 100;
  }

  /** Without boost (APERF no faster than MPERF) the average never exceeds maxFreq. */
  lemma AverageNoBoostBounded(maxFreq: u64, aperf: u64, mperf: u64)
    requires aperf <= mperf && ShiftDiffs(aperf, mperf).1 != 0
    requires maxFreq * 100 < TWO64
    ensures AveragePerf(maxFreq, aperf, mperf) <= maxFreq
  {
    PerfPercentAtMost(aperf, mperf);
    ScaledAtMost(maxFreq, PerfPercent(aperf, mperf));
  }

  lemma PerfPercentAtMost(aperf: u64, mperf: u64)
    requires aperf <= mperf && ShiftDiffs(aperf, mperf).1 != 0
    ensures PerfPercent(aperf, mperf) <= 100
  {
    var r := ShiftDiffs(aperf, mperf);
    assert r.0 as int * 100 <= 100 * r.1 as int;
    PercentAtMost(r.0 as int * 100, r.1);
  }

  lemma PercentAtMost(w: int, m: int)
    requires 0 < m && 0 <= w <= 100 * m && w < TWO64
    ensures Wrap32(Wrap64(w) / m) <= 100
  {
    assert Wrap64(w) == w;
    PercentFacts(w, m);
  }

  lemma ScaledAtMost(maxFreq: u64, p: u32)
    requires p <= 100 && maxFreq * 100 < TWO64
    ensures Wrap64(maxFreq * p) / 100 <= maxFreq
  {
    var x := maxFreq * p;
    MulMonoLeft(maxFreq, p, 100);
    assert Wrap64(x) == x;
  }

  /**
   * With boost (APERF at least as fast as MPERF) the average is at least
   * maxFreq, as long as neither the percentage nor the product wraps.
   */
  lemma AverageBoostAtLeast(maxFreq: u64, aperf: u64, mperf: u64)
    requires mperf <= aperf && ShiftDiffs(aperf, mperf).1 != 0
    requires ShiftDiffs(aperf, mperf).0 * 100 / ShiftDiffs(aperf, mperf).1 < TWO32
    requires maxFreq * (ShiftDiffs(aperf, mperf).0 * 100 / ShiftDiffs(aperf, mperf).1) < TWO64
    ensures AveragePerf(maxFreq, aperf, mperf) >= maxFreq
  {
    var r := ShiftDiffs(aperf, mperf);
    assert PerfPercent(aperf, mperf) == Wrap32(Wrap64(r.0 * 100) / r.1);
    BoostScaled(r.0, r.1, maxFreq);
  }

  lemma BoostScaled(a: int, m: int, f: int)
    requires 0 < m <= a && a * 100 < TWO64 && a * 100 / m < TWO32
    requires 0 <= f && f * (a * 100 / m) < TWO64
    ensures Wrap64(f * Wrap32(Wrap64(a * 100) / m)) / 100 >= f
  {
    var q := a * 100 / m;
    DivRange(a * 100, m);
    MulMonoLeft(100, m, a);
    QuotientAtLeast(q, m, a * 100, 100);
    assert Wrap32(Wrap64(a * 100) / m) == q;
    MulMono(100, q, f);
    assert Wrap64(f * q) == f * q;
  }

  /** 2 GHz maximum with APERF equal to MPERF averages 2 GHz; with APERF at half, 1 GHz. */
  lemma AverageExamples(maxFreq: u64, aperf: u64, mperf: u64)
    requires maxFreq == 2000000 && mperf == 1000000 && (aperf == 1000000 || aperf == 500000)
    ensures ShiftDiffs(aperf, mperf).1 != 0
    ensures AveragePerf(maxFreq, aperf, mperf) == if aperf == mperf then 2000000 else 1000000
  {
    assert ShiftDiffs(aperf, mperf) == (aperf, mperf);
    if aperf == 500000 {
      assert PerfPercent(aperf, mperf) == 50;
    } else {
      assert PerfPercent(aperf, mperf) == 100;
    }
  }

  /**
   * The shift can zero the MPERF delta: an APERF delta above the guard with an
   * MPERF delta under 128 leaves the division of get_average_perf by zero.
   */
  lemma ShiftZeroesSmallMperf(aperf: u64, mperf: u64)
    requires aperf > SHIFT_GUARD && mperf < 128
    ensures ShiftDiffs(aperf, mperf).1 == 0
  {
  }

  // Arithmetic facts the solver needs spelled out.

  lemma DivRange(a: int, b: int)
    requires b > 0
    ensures (a / b) * b <= a < (a / b) * b + b
  {
  }

  lemma MulMono(x: int, y: int, e: int)
    requires x <= y && e >= 0
    ensures x * e <= y * e
  {
  }

  lemma MulMonoLeft(e: int, x: int, y: int)
    requires 0 <= x <= y && e >= 0
    ensures 0 <= e * x <= e * y
  {
  }

  lemma DivLe(a: int, b: int)
    requires a >= 0 && b > 0
    ensures 0 <= a / b <= a
  {
    DivRange(a, b);
    MulMono(1, b, a / b);
  }

  /** q*e <= w <= c*e with e > 0 gives q <= c. */
  lemma QuotientAtMost(q: int, e: int, w: int, c: int)
    requires e > 0 && q * e <= w <= c * e
    ensures q <= c
  {
    if q > c {
      MulMono(c + 1, q, e);
    }
  }

  /** c*e <= w < q*e + e with e > 0 gives c <= q. */
  lemma QuotientAtLeast(q: int, e: int, w: int, c: int)
    requires e > 0 && c * e <= w < q * e + e
    ensures c <= q
  {
    if q < c {
      MulMono(q + 1, c, e);
    }
  }

  /** A quotient of at most 100 percent, and the remainder it leaves. */
  lemma PercentFacts(w: int, m: int)
    requires 0 < m && 0 <= w <= 100 * m
    ensures 0 <= w / m <= 100 && (w / m) * m <= w < (w / m) * m + m
  {
    DivRange(w, m);
    QuotientAtMost(w / m, m, w, 100);
    QuotientAtLeast(w / m, m, w, 0);
  }

  /** m ticks out of f*o split into whole multiples of f, rounded down, lose at most one. */
  lemma SplitFacts(m: int, f: int, o: int)
    requires f > 0 && 0 <= m <= f * o
    ensures (m / f) * f <= m < (m / f) * f + f
    ensures o - 1 <= m / f + (f * o - m) / f <= o
  {
    var c0 := m / f;
    DivRange(m, f);
    var rest := m - c0 * f;
    assert f * o - m == (o - c0) * f - rest;
    if rest == 0 {
      QuotientUnique(f * o - m, f, o - c0);
    } else {
      assert f * o - m == (o - c0 - 1) * f + (f - rest);
      QuotientUnique(f * o - m, f, o - c0 - 1);
    }
  }

  /** The quotient is the one q with q*b <= a < q*b + b. */
  lemma QuotientUnique(a: int, b: int, q: int)
    requires b > 0 && q * b <= a < q * b + b
    ensures a / b == q
  {
    var d := a / b;
    DivRange(a, b);
    if d > q {
      MulMono(q + 1, d, b);
    } else if d < q {
      MulMono(d + 1, q, b);
    }
  }
}
