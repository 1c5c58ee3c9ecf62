/** `calculateAge`: the age in whole years of a birth date on a given day, as both
    pet cards and the pet profile compute it. */
module Age {
  import opened Models

  /** The k-th anniversary of a date (the same month and day, k years later). */
  function Anniversary(birth: CalendarDate, k: int): CalendarDate
  {
    CalendarDate(birth.year + k, birth.month, birth.day)
  }

  /** Whether today's (month, day) comes before the birth (month, day). */
  predicate BeforeBirthday(today: CalendarDate, birth: CalendarDate)
  {
    var monthDifference := today.month - birth.month;
    monthDifference < 0 || (monthDifference == 0 && today.day < birth.day)
  }

  /** The year difference, one less when this year's birthday is still to come. The
      result is the number of anniversaries reached: the age-th anniversary is on or
      before today and the next one is after it. */
  function AgeInYears(today: CalendarDate, birth: CalendarDate): (age: int)
    ensures OnOrBefore(Anniversary(birth, age), today)
    ensures !OnOrBefore(Anniversary(birth, age + 1), today)
  {
    var age := today.year - birth.year;
    if BeforeBirthday(today, birth) then age - 1 else age
  }

  /** The anniversary characterisation determines the age: no other count has the
      age-th anniversary reached and the next one not. */
  lemma AgeIsUnique(today: CalendarDate, birth: CalendarDate, k: int)
    requires OnOrBefore(Anniversary(birth, k), today)
    requires !OnOrBefore(Anniversary(birth, k + 1), today)
    ensures k == AgeInYears(today, birth)
  {
  }

  /** A birth date on or before today gives an age of at least zero. */
  lemma AgeNonNegative(today: CalendarDate, birth: CalendarDate)
    requires OnOrBefore(birth, today)
    ensures AgeInYears(today, birth) >= 0
  {
  }

  /** On the birthday itself the age is exactly the year difference. */
  lemma AgeOnBirthday(today: CalendarDate, birth: CalendarDate)
    requires today.month == birth.month && today.day == birth.day
    ensures AgeInYears(today, birth) == today.year - birth.year
  {
  }

  /** The age never decreases as today moves forward. */
  lemma AgeMonotonic(t1: CalendarDate, t2: CalendarDate, birth: CalendarDate)
    requires OnOrBefore(t1, t2)
    ensures AgeInYears(t1, birth) <= AgeInYears(t2, birth)
  {
  }
}
