/** The arithmetic both `Book` classes share: the classic-year rule and the
    estimated reading time, computed in C#'s 32-bit `int`. */
module BookRules {
  import opened Common

  const ClassicBeforeYear: int := 1950
  const WordsPerPage: int := 250
  const WordsPerMinute: int := 200
  const NewReleaseYears: int := 2

  /** The largest page count whose word count still fits in an `int`. */
  const MaxExactPages: int := MaxInt32 / WordsPerPage

  /** `IsClassic()`: published before 1950. */
  predicate IsClassicYear(year: int) {
    year < ClassicBeforeYear
  }

  /** `IsNewRelease()`: published in the current year or the two before it;
      the current year is an input (the source reads the wall clock). */
  predicate IsNewReleaseYear(year: int, currentYear: int) {
    year >= currentYear - NewReleaseYears
  }

  /** `GetEstimatedReadingTime()` in minutes: `pages * 250` words in unchecked
      `int` arithmetic, divided by 200 words a minute with truncation. Within the
      range where the word count fits it is the exact quotient, 5/4 of a
      minute a page rounded toward zero. */
  function ReadingMinutes(pages: Int32): (m: int)
    ensures 0 <= pages <= MaxExactPages ==> m >= 0 && m * 4 <= pages * 5 < m * 4 + 4
    ensures -MaxExactPages <= pages < 0 ==> m <= 0 && pages * 5 <= m * 4 < pages * 5 + 4
  {
    TruncDiv(Wrap32(pages * WordsPerPage), WordsPerMinute)
  }

  /** More pages never mean less reading time, as long as the word count fits
      in an `int`. */
  lemma ReadingMinutesMonotone(p: Int32, q: Int32)
    requires -MaxExactPages <= p <= q <= MaxExactPages
    ensures ReadingMinutes(p) <= ReadingMinutes(q)
  {
  }

  /** One page past that range the word count wraps to a negative number and
      the estimate drops below zero. */
  lemma ReadingMinutesWrapsAround()
    ensures ReadingMinutes(MaxExactPages) > 0
    ensures ReadingMinutes(MaxExactPages + 1) < 0
  {
    assert MaxExactPages == 8589934;
    assert Wrap32(8589934 * 250) == 2147483500;
    assert Wrap32(8589935 * 250) == 2147483750 - 0x1_0000_0000;
  }
}
