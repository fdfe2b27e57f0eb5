/** The release-year check of a title: a year may not lie after the current
    one. The clock is read by the caller and passed in as `currentYear`. */
module Validators {
  import opened Records

  datatype YearError = InFuture(value: int, currentYear: int)

  /** Rejects a year strictly after the current year; returns nothing
      otherwise. */
  function CheckFutureYear(value: int, currentYear: int): (r: Outcome<YearError>)
    ensures r.Fail? ==> r.error == InFuture(value, currentYear)
  {
    if value > currentYear then Fail(InFuture(value, currentYear)) else Pass
  }

  /** A title's year is nullable; validators are not run on null. A given
      year is refused exactly when it lies after the current one. */
  function CheckTitleYear(year: Option<int>, currentYear: int): (r: Outcome<YearError>)
    ensures r.Fail? <==> year.Some? && year.value > currentYear
    ensures r.Fail? ==> r.error == InFuture(year.value, currentYear)
  {
    match year
    case None => Pass
    case Some(y) => CheckFutureYear(y, currentYear)
  }

  /** Exactly the years after the current one are rejected. */
  lemma RejectsExactlyFutureYears(value: int, currentYear: int)
    ensures CheckFutureYear(value, currentYear).Fail? <==> value > currentYear
  {
  }

  lemma CurrentYearAccepted(currentYear: int)
    ensures CheckFutureYear(currentYear, currentYear) == Pass
  {
  }

  /** There is no lower bound: year zero and negative years pass. */
  lemma NoLowerBound(value: int, currentYear: int)
    requires value <= 0 <= currentYear
    ensures CheckFutureYear(value, currentYear) == Pass
  {
  }

  /** The accepted years are closed downwards. */
  lemma AcceptedYearsDownwardClosed(earlier: int, later: int, currentYear: int)
    requires earlier <= later
    requires CheckFutureYear(later, currentYear) == Pass
    ensures CheckFutureYear(earlier, currentYear) == Pass
  {
  }
}
