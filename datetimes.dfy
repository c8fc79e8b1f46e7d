/**
 * The .NET `DateTime` values the records carry, by their calendar components.
 * `timeOfDay` is the time since midnight in 100-nanosecond ticks. For the
 * values .NET can hold, the lexicographic order on (year, month, day,
 * timeOfDay) is the order its comparison operators give, which compare ticks.
 */
module DateTimes {

  datatype DateTime = DateTime(year: int, month: int, day: int, timeOfDay: int)

  /** `a < b`. */
  predicate Before(a: DateTime, b: DateTime) {
    a.year < b.year
    || (a.year == b.year && a.month < b.month)
    || (a.year == b.year && a.month == b.month && a.day < b.day)
    || (a.year == b.year && a.month == b.month && a.day == b.day && a.timeOfDay < b.timeOfDay)
  }

  /** `a <= b`: `b < a` does not hold. */
  predicate NotAfter(a: DateTime, b: DateTime) {
    !Before(b, a)
  }

  /** `<=` is `<` or equality, so the comparisons form a total order. */
  lemma NotAfterIsBeforeOrEqual(a: DateTime, b: DateTime)
    ensures NotAfter(a, b) <==> Before(a, b) || a == b
  {
  }

  lemma BeforeIsStrictOrder(a: DateTime, b: DateTime, c: DateTime)
    ensures !Before(a, a)
    ensures Before(a, b) && Before(b, c) ==> Before(a, c)
    ensures Before(a, b) || a == b || Before(b, a)
  {
  }
}
