/** Session arithmetic: how many sessions a schedule window holds at a weekly frequency.
    Dates are integer milliseconds since the epoch, as `Date.getTime()` returns them. */
module Sessions {

  const MsPerDay := 86_400_000   // 1000 * 60 * 60 * 24
  const DaysPerWeek := 7

  /** JavaScript's `Math.round(a / b)`: the nearest integer to the exact quotient, a half rounded up.
      The contract is the rounding rule itself: r - 1/2 <= a/b < r + 1/2. */
  function RoundDiv(a: int, b: int): (r: int)
    requires b > 0
    ensures 2 * b * r - b <= 2 * a < 2 * b * r + b
  {
    DivBounds(2 * a + b, 2 * b);
    (2 * a + b) / (2 * b)
  }

  lemma DivBounds(n: int, d: int)
    requires d > 0
    ensures d * (n / d) <= n < d * (n / d) + d
  {
  }

  lemma MulBelowOne(c: int, x: int)
    requires c > 0 && c * x < c
    ensures x < 1
  {
  }

  lemma MulMonotone(x: int, y: int, f: int)
    requires x <= y && 0 <= f
    ensures x * f <= y * f
  {
    assert y * f - x * f == (y - x) * f;
  }

  /** The rounding rule determines the result: at most one integer lies within a half of a / b. */
  lemma {:induction false} RoundDivUnique(a: int, b: int, r: int)
    requires b > 0
    requires 2 * b * r - b <= 2 * a < 2 * b * r + b
    ensures RoundDiv(a, b) == r
  {
    var q := RoundDiv(a, b);
    assert 2 * b * (q - r) < 2 * b by {
      assert 2 * b * (q - r) == 2 * b * q - 2 * b * r;
    }
    MulBelowOne(2 * b, q - r);
    assert 2 * b * (r - q) < 2 * b by {
      assert 2 * b * (r - q) == 2 * b * r - 2 * b * q;
    }
    MulBelowOne(2 * b, r - q);
  }

  lemma {:induction false} RoundDivMonotone(a1: int, a2: int, b: int)
    requires b > 0 && a1 <= a2
    ensures RoundDiv(a1, b) <= RoundDiv(a2, b)
  {
    var r1, r2 := RoundDiv(a1, b), RoundDiv(a2, b);
    assert 2 * b * (r1 - r2) < 2 * b by {
      assert 2 * b * (r1 - r2) == 2 * b * r1 - 2 * b * r2;
    }
    MulBelowOne(2 * b, r1 - r2);
  }

  /** Whole days between two instants, `Math.round(Δms / 86 400 000)`. */
  function DaysBetween(startMs: int, finishMs: int): int {
    RoundDiv(finishMs - startMs, MsPerDay)
  }

  /** `calculateTotalSessions`: `Math.round(days / 7 * frequency)`. No clamp and no guard on the
      order of the dates. */
  function TotalSessions(frequency: int, startMs: int, finishMs: int): int {
    RoundDiv(DaysBetween(startMs, finishMs) * frequency, DaysPerWeek)
  }

  /** With a non-negative frequency and a window that does not run backwards the count is not negative. */
  lemma {:induction false} TotalSessionsNonNegative(frequency: int, startMs: int, finishMs: int)
    requires 0 <= frequency && startMs <= finishMs
    ensures TotalSessions(frequency, startMs, finishMs) >= 0
  {
    RoundDivMonotone(0, finishMs - startMs, MsPerDay);
    RoundDivUnique(0, MsPerDay, 0);
    var days := DaysBetween(startMs, finishMs);
    MulMonotone(0, days, frequency);
    RoundDivMonotone(0, days * frequency, DaysPerWeek);
    RoundDivUnique(0, DaysPerWeek, 0);
  }

  /** A longer window never yields fewer sessions at the same frequency. */
  lemma {:induction false} TotalSessionsMonotone(frequency: int, start1: int, finish1: int, start2: int, finish2: int)
    requires 0 <= frequency
    requires finish1 - start1 <= finish2 - start2
    ensures TotalSessions(frequency, start1, finish1) <= TotalSessions(frequency, start2, finish2)
  {
    RoundDivMonotone(finish1 - start1, finish2 - start2, MsPerDay);
    var d1, d2 := DaysBetween(start1, finish1), DaysBetween(start2, finish2);
    MulMonotone(d1, d2, frequency);
    RoundDivMonotone(d1 * frequency, d2 * frequency, DaysPerWeek);
  }

  /** A window of exactly k weeks holds exactly k * frequency sessions, for every k and frequency. */
  lemma {:induction false} TotalSessionsWholeWeeks(frequency: int, startMs: int, weeks: int)
    ensures TotalSessions(frequency, startMs, startMs + weeks * DaysPerWeek * MsPerDay) == weeks * frequency
  {
    var span := weeks * DaysPerWeek * MsPerDay;
    assert startMs + span - startMs == span;
    RoundDivUnique(span, MsPerDay, weeks * DaysPerWeek);
    assert DaysBetween(startMs, startMs + span) == weeks * DaysPerWeek;
    assert weeks * DaysPerWeek * frequency == DaysPerWeek * (weeks * frequency);
    RoundDivUnique(weeks * DaysPerWeek * frequency, DaysPerWeek, weeks * frequency);
  }

  /** 2024-01-01 to 2024-01-15 (UTC midnights) at two sessions a week: four sessions. */
  lemma TwoWeeksAtTwicePerWeek()
    ensures TotalSessions(2, 1_704_067_200_000, 1_705_276_800_000) == 4
  {
    TotalSessionsWholeWeeks(2, 1_704_067_200_000, 2);
  }

  /** A window that runs backwards yields no positive count. */
  lemma {:induction false} BackwardWindowNotPositive(frequency: int, startMs: int, finishMs: int)
    requires 0 <= frequency && finishMs <= startMs
    ensures TotalSessions(frequency, startMs, finishMs) <= 0
  {
    TotalSessionsMonotone(frequency, startMs, finishMs, startMs, startMs);
    TotalSessionsWholeWeeks(frequency, startMs, 0);
  }
}
