/**
 * System.DateTime reduced to what the validation compares: a calendar date and a
 * time of day, ordered lexicographically.
 */
module Dates {

  datatype DateTime = DateTime(year: int, month: int, day: int, timeOfDay: int)

  /** `a < b` on DateTime. */
  predicate Before(a: DateTime, b: DateTime) {
    || a.year < b.year
    || (a.year == b.year && a.month < b.month)
    || (a.year == b.year && a.month == b.month && a.day < b.day)
    || (a.year == b.year && a.month == b.month && a.day == b.day && a.timeOfDay < b.timeOfDay)
  }

  /** `a > b` on DateTime. */
  predicate After(a: DateTime, b: DateTime) {
    Before(b, a)
  }

  /** DateTime.AddYears: the same month, day and time of day, `n` years later. */
  function AddYears(d: DateTime, n: int): (r: DateTime)
    ensures r.year == d.year + n
    ensures r.month == d.month && r.day == d.day && r.timeOfDay == d.timeOfDay
  {
    d.(year := d.year + n)
  }

  /** Before is a strict total order. */
  lemma BeforeTotal(a: DateTime, b: DateTime)
    ensures !(Before(a, b) && Before(b, a))
    ensures !Before(a, a)
    ensures a == b || Before(a, b) || Before(b, a)
  {
  }

  /** Shifting both sides by the same number of years keeps their order. */
  lemma AddYearsKeepsOrder(a: DateTime, b: DateTime, n: int)
    ensures Before(AddYears(a, n), AddYears(b, n)) <==> Before(a, b)
  {
  }

  /** A moment `m` years back is before a moment `k < m` years back. */
  lemma FurtherBackIsBefore(now: DateTime, k: int, m: int)
    requires k < m
    ensures Before(AddYears(now, -m), AddYears(now, -k))
  {
  }
}
