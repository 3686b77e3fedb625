/**
  The slider mapping of analog join 31: a raw 16-bit position becomes a
  whole percentage and a coarse level from 0 to 3.

  The percentage is `raw * 100 / 65535` evaluated in integer arithmetic: the
  multiplication and the division are both done on `int` before the result
  is widened to `double`, so the percentage is the floor of the exact ratio
  and converting it back to a ushort is exact.
 */
module RangeMapper {
  import opened ChannelStore

  /** Whole percentage of full scale, rounded down. */
  function Percent(raw: UShort): (pct: UShort)
    ensures pct <= 100
    ensures pct * MaxUShort <= raw * 100 < (pct + 1) * MaxUShort
  {
    var pct := raw * 100 / MaxUShort;
    DivBounds(raw * 100, MaxUShort);
    MulCancel(pct, 101, MaxUShort);
    pct
  }

  /** The level shown for a percentage: 0 below 1%, 1 below 33%, 2 below 66%, else 3. */
  function Level(pct: nat): (level: UShort)
    ensures level <= 3
  {
    if pct < 1 then 0
    else if pct < 33 then 1
    else if pct < 66 then 2
    else 3
  }

  /**
    Reference definition of the level straight from the raw position: the
    largest raw value of each level, worked out from the thresholds of
    `Level` and the flooring in `Percent`.
   */
  function RawLevel(raw: UShort): (level: UShort) {
    if raw <= 655 then 0
    else if raw <= 21626 then 1
    else if raw <= 43253 then 2
    else 3
  }

  /** The level computed from the raw position. */
  function Bucket(raw: UShort): (level: UShort)
    ensures level == RawLevel(raw)
  {
    LevelMatchesRawLevel(raw);
    Level(Percent(raw))
  }

  /** Euclidean division of a non-negative number is bracketed by its quotient. */
  lemma DivBounds(a: nat, d: nat)
    requires d > 0
    ensures (a / d) * d <= a < (a / d + 1) * d
  {
  }

  /** The flooring percentage is non-decreasing in the raw position. */
  lemma PercentMonotone(lo: UShort, hi: UShort)
    requires lo <= hi
    ensures Percent(lo) <= Percent(hi)
  {
  }

  /** A strict inequality between multiples of the same positive number carries over to the factors. */
  lemma MulCancel(a: int, b: int, d: int)
    requires d > 0
    requires a * d < b * d
    ensures a < b
  {
  }

  /** The threshold table of `RawLevel` agrees with `Level` applied to `Percent`. */
  lemma LevelMatchesRawLevel(raw: UShort)
    ensures Level(Percent(raw)) == RawLevel(raw)
  {
  }

  /** The level never decreases as the slider moves up. */
  lemma BucketMonotone(lo: UShort, hi: UShort)
    requires lo <= hi
    ensures Bucket(lo) <= Bucket(hi)
  {
  }

  /** Three positions worked out by hand: bottom, top, and one third of the range. */
  lemma BucketExamples()
    ensures Percent(0) == 0 && Bucket(0) == 0
    ensures Percent(65535) == 100 && Bucket(65535) == 3
    ensures Percent(21845) == 33 && Bucket(21845) == 2
  {
  }
}
