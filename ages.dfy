/**
 * The age engine: the "insurance age" of a family member and the
 * relationship label derived from it (src/InsurancePortal.tsx:956-994).
 * A date is what JavaScript's `getFullYear`, `getMonth` (0 = January) and
 * `getDate` give; the as-of date that the source takes from `new Date()` is
 * a parameter.
 */
module Ages {

  type Month = m: int | 0 <= m < 12
  type Day = d: int | 1 <= d <= 31 witness 1

  datatype Date = Date(year: int, month: Month, day: Day)

  /** Chronological order of dates, compared field by field. */
  predicate OnOrBefore(a: Date, b: Date) {
    a.year < b.year
    || (a.year == b.year && (a.month < b.month || (a.month == b.month && a.day <= b.day)))
  }

  /** The `n`-th anniversary of `dob`. */
  function Anniversary(dob: Date, n: int): Date {
    Date(dob.year + n, dob.month, dob.day)
  }

  /** Month count since year 0, so that months can be counted across years. */
  function MonthIndex(d: Date): int {
    d.year * 12 + d.month
  }

  /**
   * The ordinary age: the number of birthdays that have passed, i.e. the
   * last anniversary on or before `asOf`.
   */
  function CalendarAge(dob: Date, asOf: Date): (n: int)
    ensures OnOrBefore(Anniversary(dob, n), asOf)
    ensures !OnOrBefore(Anniversary(dob, n + 1), asOf)
  {
    var passed := asOf.month > dob.month || (asOf.month == dob.month && asOf.day >= dob.day);
    asOf.year - dob.year - (if passed then 0 else 1)
  }

  /** Those two facts single the calendar age out. */
  lemma CalendarAgeUnique(dob: Date, asOf: Date, n: int)
    requires OnOrBefore(Anniversary(dob, n), asOf)
    requires !OnOrBefore(Anniversary(dob, n + 1), asOf)
    ensures n == CalendarAge(dob, asOf)
  {
  }

  /**
   * Whole months since the last birthday: months between the last
   * anniversary and `asOf`, less one when the as-of day of month has not yet
   * reached the birth day.
   */
  function WholeMonthsSinceBirthday(dob: Date, asOf: Date): (k: int)
    ensures 0 <= k <= 11
  {
    var last := Anniversary(dob, CalendarAge(dob, asOf));
    MonthIndex(asOf) - MonthIndex(last) - (if asOf.day < dob.day then 1 else 0)
  }

  /**
   * `calculateAge` (src/InsurancePortal.tsx:956-985), step by step as
   * written: the calendar age by decrementing the year difference, then the
   * months since the last birthday by month difference modulo 12, adjusted
   * for the day of month; six months or more add one year.
   */
  function CalculateAge(dob: Date, asOf: Date): (age: int)
    ensures age == CalendarAge(dob, asOf) + (if WholeMonthsSinceBirthday(dob, asOf) >= 6 then 1 else 0)
  {
    var age0 := asOf.year - dob.year;
    var monthDiff := asOf.month - dob.month;
    var age1 := if monthDiff < 0 || (monthDiff == 0 && asOf.day < dob.day) then age0 - 1 else age0;
    var months0 := asOf.month - dob.month;
    var months1 := if months0 < 0 then months0 + 12 else months0;
    var months2 :=
      if asOf.day < dob.day then
        (if months1 - 1 < 0 then months1 - 1 + 12 else months1 - 1)
      else months1;
    if months2 >= 6 then age1 + 1 else age1
  }

  /** Insurance age is the calendar age rounded to the nearest birthday: never lower, at most one higher. */
  lemma InsuranceAgeRounds(dob: Date, asOf: Date)
    ensures CalendarAge(dob, asOf) <= CalculateAge(dob, asOf) <= CalendarAge(dob, asOf) + 1
  {
  }

  /** The same day of the month, six months after the `n`-th anniversary of `dob`. */
  function SixMonthsAfter(dob: Date, n: int): Date {
    if dob.month < 6 then Date(dob.year + n, dob.month + 6, dob.day)
    else Date(dob.year + n + 1, dob.month - 6, dob.day)
  }

  /**
   * For every date of birth and every `n`: six whole months after the `n`-th
   * birthday the insurance age is already `n + 1`; one day earlier it is
   * still `n`.
   */
  lemma SixMonthBoundary(dob: Date, n: int)
    ensures CalculateAge(dob, SixMonthsAfter(dob, n)) == n + 1
    ensures dob.day >= 2 ==> CalculateAge(dob, SixMonthsAfter(dob, n).(day := dob.day - 1)) == n
  {
  }

  /**
   * `getAutoRelationship` (src/InsurancePortal.tsx:987-994): the label for a
   * sponsorship value and an age.
   */
  function AutoRelationship(age: int, sponsorship: string): (r: string)
    ensures r == "Self" <==> sponsorship == "Principal"
    ensures r == "Spouse" <==> sponsorship in {"Wife", "Husband"}
    ensures r == "Parent" <==> sponsorship in {"Father", "Mother"} && age >= 18
    ensures r == "Child" <==> sponsorship !in {"Principal", "Wife", "Husband", "Father", "Mother"} && age < 18
    ensures r == "Dependent" <==>
      sponsorship !in {"Principal", "Wife", "Husband", "Father", "Mother"} && 18 <= age < 25
    ensures r in {"Self", "Spouse", "Parent", "Child", "Dependent", "Other"}
  {
    if sponsorship == "Principal" then "Self"
    else if sponsorship == "Wife" || sponsorship == "Husband" then "Spouse"
    else if sponsorship == "Father" || sponsorship == "Mother" then (if age >= 18 then "Parent" else "Other")
    else if age < 18 then "Child"
    else if age >= 18 && age < 25 then "Dependent"
    else "Other"
  }
}
