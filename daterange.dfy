/** `DateRange`: an inclusive interval of `DateTime`s whose end is not before its start. */
module DateRanges {
  import opened Wrappers
  import opened DateTimes

  /** Get-only `Start` and `End`: a value, fixed once built. */
  datatype DateRange = DateRange(start: DateTime, end: DateTime) {

    /** The invariant the constructor establishes. */
    predicate Valid() {
      NotAfter(start, end)
    }

    /** `Contains(date)`: `date >= Start && date <= End`. */
    predicate Contains(date: DateTime) {
      NotAfter(start, date) && NotAfter(date, end)
    }
  }

  /** The exception the constructor throws. */
  datatype RangeError = ArgumentException(message: string)

  const EndBeforeStartMessage := "End date must be greater than or equal to start date."

  /** `new DateRange(start, end)`. */
  function NewDateRange(start: DateTime, end: DateTime): (r: Result<DateRange, RangeError>)
    ensures r.Failure? <==> Before(end, start)
    ensures r.Failure? ==> r.error == ArgumentException(EndBeforeStartMessage)
    ensures r.Success? ==> r.value.start == start && r.value.end == end && r.value.Valid()
  {
    if Before(end, start) then Failure(ArgumentException(EndBeforeStartMessage))
    else Success(DateRange(start, end))
  }

  /** Both ends belong to a range built successfully, and a one-instant range is allowed. */
  lemma ContainsItsBounds(start: DateTime, end: DateTime)
    requires NewDateRange(start, end).Success?
    ensures NewDateRange(start, end).value.Contains(start)
    ensures NewDateRange(start, end).value.Contains(end)
    ensures NewDateRange(start, start).Success?
  {
  }

  /** A range that holds any instant is valid, and `Contains` is membership between the bounds. */
  lemma ContainsMeansBetween(range: DateRange, date: DateTime)
    ensures range.Contains(date) ==> range.Valid()
    ensures range.Contains(date) <==>
      (Before(range.start, date) || date == range.start) && (Before(date, range.end) || date == range.end)
  {
  }

  /** A range with `Start == End` holds exactly that instant. */
  lemma SingleInstantRange(d: DateTime, date: DateTime)
    ensures NewDateRange(d, d).Success?
    ensures NewDateRange(d, d).value.Contains(date) <==> date == d
  {
  }
}
