/** The SM-2 variant that schedules reviews (SM2Algorithm.calculate).
    Every constant of the algorithm is a multiple of 0.01, so ease factors are
    held exactly as integer hundredths: 250 stands for 2.5, 130 for 1.3. */
module SM2 {
  import opened Common

  /** The ease-factor floor, 1.3. */
  const MinEase := 130
  /** The ease factor of an entry that has never been scheduled, 2.5. */
  const DefaultEase := 250
  /** Familiarity change of a failed review. */
  const FailureDelta := -20
  /** Familiarity change of a successful review, the same for qualities 3, 4 and 5. */
  const SuccessDelta := 15

  datatype SM2Result = SM2Result(intervalDays: int, easinessFactor: int, familiarityDelta: int)

  /** `0.1 - (5 - q) * (0.08 + (5 - q) * 0.02)`, in hundredths. */
  function EaseChange(quality: int): int {
    10 - (5 - quality) * (8 + (5 - quality) * 2)
  }

  /** `Math.round(interval * ease / 100)`: the integer nearest to the product,
      halves rounded toward positive infinity, for either sign. */
  function RoundedProduct(interval: int, ease: int): (r: int)
    ensures 100 * r <= interval * ease + 50 < 100 * r + 100
  {
    (interval * ease + 50) / 100
  }

  /** One scheduling step from the current interval, the current ease factor
      and the answer quality. Total: no input is rejected. */
  function Calculate(interval: int, ease: int, quality: int): (r: SM2Result)
    ensures r.easinessFactor >= MinEase
  {
    if quality >= 3 then
      var newEase := Max(ease + EaseChange(quality), MinEase);
      var newInterval :=
        if interval == 0 then 1
        else if interval == 1 then 6
        else RoundedProduct(interval, newEase);
      SM2Result(newInterval, newEase, Min(100, SuccessDelta))
    else
      SM2Result(1, Max(ease - 20, MinEase), FailureDelta)
  }

  /** A failure (quality below 3) resets the interval to one day, lowers the
      ease by 0.2 down to the floor, and lowers familiarity by 20. */
  lemma FailureResets(interval: int, ease: int, quality: int)
    requires quality < 3
    ensures Calculate(interval, ease, quality) == SM2Result(1, Max(ease - 20, MinEase), -20)
  {
  }

  /** On success the first two intervals are 1 and 6 days, whatever the ease. */
  lemma SuccessFirstIntervals(ease: int, quality: int)
    requires quality >= 3
    ensures Calculate(0, ease, quality).intervalDays == 1
    ensures Calculate(1, ease, quality).intervalDays == 6
  {
  }

  /** From the third success on, the interval is the old interval times the
      NEW ease factor, rounded. */
  lemma SuccessLaterInterval(interval: int, ease: int, quality: int)
    requires quality >= 3 && interval >= 2
    ensures var r := Calculate(interval, ease, quality);
      r.intervalDays == RoundedProduct(interval, r.easinessFactor)
      && r.easinessFactor == Max(ease + EaseChange(quality), MinEase)
  {
  }

  /** Using the new ease factor is observable: from interval 10 and ease 2.5,
      quality 3 gives round(10 * 2.36) = 24 days, not round(10 * 2.5) = 25. */
  lemma NewEaseNotOld()
    ensures Calculate(10, 250, 3).intervalDays == 24
    ensures RoundedProduct(10, 250) == 25
  {
  }

  /** Familiarity rises by a flat 15 on every success. */
  lemma SuccessFlatDelta(interval: int, ease: int, quality: int)
    requires quality >= 3
    ensures Calculate(interval, ease, quality).familiarityDelta == 15
  {
  }

  /** The ease step table for success from an ease of at least 1.44, where the
      floor never applies: +0.1 for quality 5, unchanged for 4, -0.14 for 3. */
  lemma SuccessEaseSteps(interval: int, ease: int)
    requires ease >= 144
    ensures Calculate(interval, ease, 5).easinessFactor == ease + 10
    ensures Calculate(interval, ease, 4).easinessFactor == ease
    ensures Calculate(interval, ease, 3).easinessFactor == ease - 14
  {
  }

  /** From a non-negative interval and an ease at the floor or above, the next
      interval is at least one day. */
  lemma IntervalPositive(interval: int, ease: int, quality: int)
    requires interval >= 0 && ease >= MinEase
    ensures Calculate(interval, ease, quality).intervalDays >= 1
  {
    if quality >= 3 && interval >= 2 {
      var e := Calculate(interval, ease, quality).easinessFactor;
      assert interval * e >= 2 * e by {
        assert (interval - 2) * e >= 0;
      }
    }
  }

  /** The ease factor after `n` failures in a row from `ease`. */
  function EaseAfterFailures(ease: int, n: nat): int
    decreases n
  {
    if n == 0 then ease else EaseAfterFailures(Calculate(1, ease, 0).easinessFactor, n - 1)
  }

  /** Repeated failures lower the ease by 0.2 each time and never below 1.3,
      whatever the start. */
  lemma {:induction false} RepeatedFailures(ease: int, n: nat)
    requires n >= 1
    ensures EaseAfterFailures(ease, n) == Max(ease - 20 * n, MinEase)
    ensures EaseAfterFailures(ease, n) >= MinEase
    decreases n
  {
    if n > 1 {
      RepeatedFailures(Calculate(1, ease, 0).easinessFactor, n - 1);
    }
  }

  /** The floor is a fixed point of failure. */
  lemma FloorIsFixedPoint(interval: int, quality: int)
    requires quality < 3
    ensures Calculate(interval, MinEase, quality).easinessFactor == MinEase
  {
  }
}
