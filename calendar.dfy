/** Calendar dates and the age-to-birth-date helpers of cmd/search.go, which cmd/person.go
    repeats word for word. Go's `time.Time` is reduced to its calendar date in the proleptic
    Gregorian calendar; `AddDate` is modelled by `Normalize`, which folds an out-of-range
    month and day into the neighbouring months exactly as Go's `time.Date` does. */
module Calendar {

  datatype Date = Date(year: int, month: int, day: int)

  /** Go's test `year%400 == 0` ... uses a truncating remainder; a remainder is zero for the
      truncating and the Euclidean operator alike, so Dafny's `%` gives the same answer. */
  predicate IsLeapYear(year: int)
  {
    if year % 400 == 0 then true
    else if year % 100 == 0 then false
    else year % 4 == 0
  }

  /** The if-chain is the Gregorian rule: divisible by 400, or by 4 but not by 100. */
  lemma LeapYearRule(year: int)
    ensures IsLeapYear(year) <==> year % 400 == 0 || (year % 4 == 0 && year % 100 != 0)
  {
  }

  function DaysIn(year: int, month: int): (n: int)
    requires 1 <= month <= 12
    ensures 28 <= n <= 31
    ensures n == 29 <==> month == 2 && IsLeapYear(year)
  {
    if month == 2 then (if IsLeapYear(year) then 29 else 28)
    else if month == 4 || month == 6 || month == 9 || month == 11 then 30
    else 31
  }

  predicate Valid(d: Date)
  {
    1 <= d.month <= 12 && 1 <= d.day <= DaysIn(d.year, d.month)
  }

  /** Calendar order: earlier year, then earlier month, then earlier day. */
  predicate OnOrBefore(a: Date, b: Date)
  {
    a.year < b.year ||
    (a.year == b.year && (a.month < b.month || (a.month == b.month && a.day <= b.day)))
  }

  // ---------------------------------------------------------------------------
  // Normalisation (Go's time.Date, and so AddDate)

  /** Folds a day number outside the month into the following or preceding months. */
  function NormalizeDay(year: int, month: int, day: int): (r: Date)
    requires 1 <= month <= 12
    ensures Valid(r)
    ensures 1 <= day <= DaysIn(year, month) ==> r == Date(year, month, day)
    decreases if day < 1 then 1 - day else 0, if day < 1 then 0 else day
  {
    if day < 1 then
      var py := if month == 1 then year - 1 else year;
      var pm := if month == 1 then 12 else month - 1;
      NormalizeDay(py, pm, day + DaysIn(py, pm))
    else if day > DaysIn(year, month) then
      var ny := if month == 12 then year + 1 else year;
      var nm := if month == 12 then 1 else month + 1;
      NormalizeDay(ny, nm, day - DaysIn(year, month))
    else
      Date(year, month, day)
  }

  /** The date Go's `time.Date(year, month, day, ...)` stands for: the month is folded into
      the year first (floor division), then the day into the months. */
  function Normalize(year: int, month: int, day: int): (r: Date)
    ensures Valid(r)
    ensures Valid(Date(year, month, day)) ==> r == Date(year, month, day)
  {
    NormalizeDay(year + (month - 1) / 12, (month - 1) % 12 + 1, day)
  }

  /** Go's `t.AddDate(years, months, days)`. */
  function AddDate(t: Date, years: int, months: int, days: int): (r: Date)
    ensures Valid(r)
  {
    Normalize(t.year + years, t.month + months, t.day + days)
  }

  /** The day after a valid date, written out month by month. */
  function NextDay(d: Date): (r: Date)
    requires Valid(d)
  {
    if d.day < DaysIn(d.year, d.month) then Date(d.year, d.month, d.day + 1)
    else if d.month < 12 then Date(d.year, d.month + 1, 1)
    else Date(d.year + 1, 1, 1)
  }

  /** The day before a valid date, written out month by month. */
  function PreviousDay(d: Date): (r: Date)
    requires Valid(d)
  {
    if d.day > 1 then Date(d.year, d.month, d.day - 1)
    else if d.month > 1 then Date(d.year, d.month - 1, DaysIn(d.year, d.month - 1))
    else Date(d.year - 1, 12, 31)
  }

  lemma AddOneDay(d: Date)
    requires Valid(d)
    ensures AddDate(d, 0, 0, 1) == NextDay(d)
    ensures Valid(NextDay(d)) && PreviousDay(NextDay(d)) == d
  {
    assert (d.month - 1) / 12 == 0 && (d.month - 1) % 12 + 1 == d.month;
  }

  lemma SubtractOneDay(d: Date)
    requires Valid(d)
    ensures AddDate(d, 0, 0, -1) == PreviousDay(d)
    ensures Valid(PreviousDay(d)) && NextDay(PreviousDay(d)) == d
  {
    assert (d.month - 1) / 12 == 0 && (d.month - 1) % 12 + 1 == d.month;
    if d.day == 1 {
      var py := if d.month == 1 then d.year - 1 else d.year;
      var pm := if d.month == 1 then 12 else d.month - 1;
      assert NormalizeDay(d.year, d.month, 0) == NormalizeDay(py, pm, DaysIn(py, pm));
    }
  }

  /** Moving a valid date by whole years keeps month and day, except that 29 February
      in a common year overflows into 1 March. */
  lemma ShiftYears(d: Date, years: int)
    requires Valid(d)
    ensures AddDate(d, years, 0, 0) ==
      if d.month == 2 && d.day == 29 && !IsLeapYear(d.year + years) then Date(d.year + years, 3, 1)
      else Date(d.year + years, d.month, d.day)
  {
    var y := d.year + years;
    assert (d.month - 1) / 12 == 0 && (d.month - 1) % 12 + 1 == d.month;
    if d.month == 2 && d.day == 29 && !IsLeapYear(y) {
      assert NormalizeDay(y, 2, 29) == NormalizeDay(y, 3, 1);
    }
  }

  // ---------------------------------------------------------------------------
  // The age helpers of cmd/search.go (and cmd/person.go)

  /** `minAgeToBornBefore`: today moved back `minAge` years; a result of 1 March in a leap
      year is moved back to 29 February. */
  function MinAgeToBornBefore(minAge: int, today: Date): (r: Date)
    requires Valid(today)
    ensures Valid(r)
  {
    var result := AddDate(today, -minAge, 0, 0);
    if result.day == 1 && result.month == 3 && IsLeapYear(result.year) then AddDate(result, 0, 0, -1)
    else result
  }

  /** `maxAgeToBornAfter`: the day after today, `maxAge + 1` years back, normalised. */
  function MaxAgeToBornAfter(maxAge: int, today: Date): (r: Date)
    requires Valid(today)
    ensures Valid(r)
  {
    AddDate(today, -maxAge - 1, 0, 1)
  }

  /** Closed form of `minAgeToBornBefore`: only the year changes, by exactly `minAge`,
      except on the two leap-day edges. */
  lemma {:induction false} MinAgeToBornBeforeCases(minAge: int, today: Date)
    requires Valid(today)
    ensures var y := today.year - minAge;
      MinAgeToBornBefore(minAge, today) ==
        if today.month == 3 && today.day == 1 && IsLeapYear(y) then Date(y, 2, 29)
        else if today.month == 2 && today.day == 29 && !IsLeapYear(y) then Date(y, 3, 1)
        else Date(y, today.month, today.day)
  {
    ShiftYears(today, -minAge);
    var result := AddDate(today, -minAge, 0, 0);
    if result.day == 1 && result.month == 3 && IsLeapYear(result.year) {
      SubtractOneDay(result);
    }
  }

  /** Closed form of `maxAgeToBornAfter`: the day after today's month and day in year
      `today.year - maxAge - 1`; 29 February overflows by two days in a common target year. */
  lemma {:induction false} MaxAgeToBornAfterCases(maxAge: int, today: Date)
    requires Valid(today)
    ensures var y := today.year - maxAge - 1;
      MaxAgeToBornAfter(maxAge, today) ==
        if today.day < DaysIn(y, today.month) then Date(y, today.month, today.day + 1)
        else if today.day > DaysIn(y, today.month) then Date(y, 3, 2)
        else if today.month == 12 then Date(y + 1, 1, 1)
        else Date(y, today.month + 1, 1)
  {
    var y := today.year - maxAge - 1;
    var m := today.month;
    assert (m - 1) / 12 == 0 && (m - 1) % 12 + 1 == m;
    if today.day > DaysIn(y, m) {
      assert m == 2 && today.day == 29;
      assert NormalizeDay(y, 2, 30) == NormalizeDay(y, 3, 2);
    } else if today.day == DaysIn(y, m) {
      var ny := if m == 12 then y + 1 else y;
      var nm := if m == 12 then 1 else m + 1;
      assert NormalizeDay(y, m, today.day + 1) == NormalizeDay(ny, nm, 1);
    }
  }

  /** The cases of cmd/search_test.go. */
  lemma AgeHelperTestCases()
    ensures MinAgeToBornBefore(18, Date(2021, 1, 1)) == Date(2003, 1, 1)
    ensures MinAgeToBornBefore(18, Date(2020, 2, 29)) == Date(2002, 3, 1)
    ensures MinAgeToBornBefore(18, Date(2022, 3, 1)) == Date(2004, 2, 29)
    ensures MaxAgeToBornAfter(18, Date(2021, 1, 1)) == Date(2002, 1, 2)
  {
    MinAgeToBornBeforeCases(18, Date(2021, 1, 1));
    assert !IsLeapYear(2002);
    MinAgeToBornBeforeCases(18, Date(2020, 2, 29));
    assert IsLeapYear(2004);
    MinAgeToBornBeforeCases(18, Date(2022, 3, 1));
    assert DaysIn(2002, 1) == 31;
    MaxAgeToBornAfterCases(18, Date(2021, 1, 1));
  }

  // ---------------------------------------------------------------------------
  // Reading the two helpers as age bounds

  /** Completed years on `today` of someone born on `birth`: the difference of the years, less
      one while today's month and day come before those of the birth date. Someone born on
      29 February thus turns a year older on 1 March in a common year. */
  function Age(birth: Date, today: Date): int
  {
    var birthdayNotYetReached :=
      today.month < birth.month || (today.month == birth.month && today.day < birth.day);
    today.year - birth.year - (if birthdayNotYetReached then 1 else 0)
  }

  /** The day `day` of the month, or the month's last day when the month is shorter. */
  function ClampedDate(year: int, month: int, day: int): (r: Date)
    requires 1 <= month <= 12 && 1 <= day
    ensures Valid(r)
  {
    Date(year, month, if day <= DaysIn(year, month) then day else DaysIn(year, month))
  }

  /** The latest birth date of someone at least `minAge` years old on `today`: the year moves
      back and a day the target month lacks is clamped, not carried into March. */
  function BornBeforeForMinAge(minAge: int, today: Date): (r: Date)
    requires Valid(today)
    ensures Valid(r)
  {
    ClampedDate(today.year - minAge, today.month, today.day)
  }

  /** The earliest birth date of someone at most `maxAge` years old on `today`. */
  function BornAfterForMaxAge(maxAge: int, today: Date): (r: Date)
    requires Valid(today)
    ensures Valid(r)
  {
    NextDay(ClampedDate(today.year - maxAge - 1, today.month, today.day))
  }

  /** Born on or before the corrected bound exactly when at least `minAge` years old. */
  lemma BornBeforeForMinAgeIsExact(minAge: int, today: Date, birth: Date)
    requires Valid(today) && Valid(birth)
    ensures OnOrBefore(birth, BornBeforeForMinAge(minAge, today)) <==> Age(birth, today) >= minAge
  {
  }

  /** Born on or after the corrected bound exactly when at most `maxAge` years old. */
  lemma BornAfterForMaxAgeIsExact(maxAge: int, today: Date, birth: Date)
    requires Valid(today) && Valid(birth)
    ensures OnOrBefore(BornAfterForMaxAge(maxAge, today), birth) <==> Age(birth, today) <= maxAge
  {
  }

  /** The corrected bounds differ from the helpers only on the leap-day edges. */
  lemma {:induction false} CorrectedBoundsAgreeAwayFromLeapDay(age: int, today: Date)
    requires Valid(today)
    requires !(today.month == 2 && today.day == 29) && !(today.month == 3 && today.day == 1)
    ensures MinAgeToBornBefore(age, today) == BornBeforeForMinAge(age, today)
    ensures MaxAgeToBornAfter(age, today) == BornAfterForMaxAge(age, today)
  {
    MinAgeToBornBeforeCases(age, today);
    MaxAgeToBornAfterCases(age, today);
  }

  /** As written, `minAgeToBornBefore` leaves out someone who turns 18 on 1 March 2022. */
  lemma MinAgeToBornBeforeExcludesMarchBirthday()
    ensures Age(Date(2004, 3, 1), Date(2022, 3, 1)) == 18
    ensures !OnOrBefore(Date(2004, 3, 1), MinAgeToBornBefore(18, Date(2022, 3, 1)))
  {
    assert IsLeapYear(2004);
    MinAgeToBornBeforeCases(18, Date(2022, 3, 1));
  }

  /** As written, `minAgeToBornBefore` takes in someone who is still 17 on 29 February 2020. */
  lemma MinAgeToBornBeforeIncludesMinor()
    ensures Age(Date(2002, 3, 1), Date(2020, 2, 29)) == 17
    ensures OnOrBefore(Date(2002, 3, 1), MinAgeToBornBefore(18, Date(2020, 2, 29)))
  {
    assert !IsLeapYear(2002);
    MinAgeToBornBeforeCases(18, Date(2020, 2, 29));
  }

  /** As written, `maxAgeToBornAfter` leaves out someone who is still 18 on 29 February 2024. */
  lemma MaxAgeToBornAfterMisjudgesLeapDay()
    ensures Age(Date(2005, 3, 1), Date(2024, 2, 29)) == 18
    ensures MaxAgeToBornAfter(18, Date(2024, 2, 29)) == Date(2005, 3, 2)
    ensures !OnOrBefore(MaxAgeToBornAfter(18, Date(2024, 2, 29)), Date(2005, 3, 1))
  {
    assert DaysIn(2005, 2) == 28;
    MaxAgeToBornAfterCases(18, Date(2024, 2, 29));
  }
}
