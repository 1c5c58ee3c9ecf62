/** The pet profile details panel: the age text, the ordinal birth date and the
    refresh after an edit. */
module ProfileDetails {
  import opened Js
  import opened Models
  import opened Age
  import opened Alerts
  import opened Messages
  import opened ApiStore

  /** The month count the zero-year branch shows: the raw month difference when it
      is not negative, else twelve plus it, one less when the day of the month has
      not been reached. */
  function ZeroYearMonths(today: CalendarDate, birth: CalendarDate): int
  {
    var monthDiff := today.month - birth.month;
    if monthDiff >= 0 then monthDiff
    else 12 + monthDiff + (if today.day >= birth.day then 0 else -1)
  }

  /** `calculateAge` as written: "<m> months" when the year count is zero, else
      "<years> years and <monthDiff> months" with the raw month difference. The text
      starts with the number it reports and always ends in " months". */
  function AgeText(today: CalendarDate, birth: CalendarDate): (s: string)
    ensures AgeInYears(today, birth) == 0 ==> ParseInt(s, 10) == Int(ZeroYearMonths(today, birth))
    ensures AgeInYears(today, birth) != 0 ==> ParseInt(s, 10) == Int(AgeInYears(today, birth))
    ensures |s| >= 7 && s[|s| - 7..] == " months"
  {
    var ageYears := AgeInYears(today, birth);
    var monthDiff := today.month - birth.month;
    if ageYears == 0 then
      var m := ZeroYearMonths(today, birth);
      ParseIntOfIntToString(m, " months");
      IntToString(m) + " months"
    else
      var tail := " years and " + IntToString(monthDiff) + " months";
      ParseIntOfIntToString(ageYears, tail);
      assert IntToString(ageYears) + tail == IntToString(ageYears) + " years and " + IntToString(monthDiff) + " months";
      IntToString(ageYears) + tail
  }

  /** In the zero-year branch the month count lies in 0..11 for months in range. */
  lemma ZeroYearMonthsInRange(today: CalendarDate, birth: CalendarDate)
    requires ValidMonth(today) && ValidMonth(birth)
    requires AgeInYears(today, birth) == 0
    ensures 0 <= ZeroYearMonths(today, birth) < 12
  {
    if today.month - birth.month < 0 {
      assert today.year == birth.year + 1;
    }
  }

  /** The months part outside the zero-year branch is the raw month difference,
      which is negative when the birth month is later in the year than today's: on
      2023-04-01 a pet born on 2020-07-01 is shown as "2 years and -3 months"; and
      inside the zero-year branch a month whose day has not been reached is still
      counted: on 2023-03-10 a pet born on 2023-01-15 is shown as "2 months". */
  lemma AgeTextAsWrittenExamples()
    ensures AgeText(CalendarDate(2023, 3, 1), CalendarDate(2020, 6, 1)) == "2 years and -3 months"
    ensures AgeText(CalendarDate(2023, 2, 10), CalendarDate(2023, 0, 15)) == "2 months"
  {
    SmallNumerals();
    ExampleTexts();
    var today, birth := CalendarDate(2023, 3, 1), CalendarDate(2020, 6, 1);
    assert AgeInYears(today, birth) == 2;
    assert AgeText(today, birth) == "2" + (" years and " + "-3" + " months");
    var today2, birth2 := CalendarDate(2023, 2, 10), CalendarDate(2023, 0, 15);
    assert AgeInYears(today2, birth2) == 0;
    assert ZeroYearMonths(today2, birth2) == 2;
    assert AgeText(today2, birth2) == "2" + " months";
  }

  /** The example texts assembled from their pieces. */
  lemma ExampleTexts()
    ensures "2" + (" years and " + "-3" + " months") == "2 years and -3 months"
    ensures "2" + (" years and " + "9" + " months") == "2 years and 9 months"
    ensures "2" + " months" == "2 months"
    ensures "1" + " months" == "1 months"
  {
  }

  /** The decimal texts of the small numbers the examples show. */
  lemma SmallNumerals()
    ensures IntToString(1) == "1" && IntToString(2) == "2" && IntToString(9) == "9"
    ensures IntToString(-3) == "-3"
  {
    assert NatToString(1) == [DigitChar(1)] == "1";
    assert NatToString(2) == [DigitChar(2)] == "2";
    assert NatToString(3) == [DigitChar(3)] == "3";
    assert NatToString(9) == [DigitChar(9)] == "9";
  }

  /** The number of whole months from the birth date to today. */
  function FullMonths(today: CalendarDate, birth: CalendarDate): int
  {
    (today.year - birth.year) * 12 + (today.month - birth.month) - (if today.day < birth.day then 1 else 0)
  }

  /** The age split into whole years and the remaining whole months. For months in
      range the years are `calculateAge`'s year count and the months lie in 0..11. */
  function CorrectedAgeParts(today: CalendarDate, birth: CalendarDate): (r: (int, int))
    ensures r.0 * 12 + r.1 == FullMonths(today, birth)
    ensures 0 <= r.1 < 12
    ensures ValidMonth(today) && ValidMonth(birth) ==> r.0 == AgeInYears(today, birth)
  {
    var total := FullMonths(today, birth);
    var years := total / 12;
    var months := total % 12;
    assert ValidMonth(today) && ValidMonth(birth) ==> years == AgeInYears(today, birth) by {
      if ValidMonth(today) && ValidMonth(birth) {
        var rest := (today.month - birth.month) - (if today.day < birth.day then 1 else 0);
        assert total == (today.year - birth.year) * 12 + rest;
        assert -12 <= rest < 12;
        if rest < 0 {
          assert BeforeBirthday(today, birth);
          DivisionOfShifted(today.year - birth.year - 1, rest + 12);
        } else {
          assert !BeforeBirthday(today, birth);
          DivisionOfShifted(today.year - birth.year, rest);
        }
      }
    }
    (years, months)
  }

  lemma DivisionOfShifted(q: int, r: int)
    requires 0 <= r < 12
    ensures (q * 12 + r) / 12 == q
  {
  }

  /** The age text with the months part counted from the last birthday. */
  function CorrectedAgeText(today: CalendarDate, birth: CalendarDate): (s: string)
    ensures CorrectedAgeParts(today, birth).0 == 0 ==>
      ParseInt(s, 10) == Int(CorrectedAgeParts(today, birth).1)
    ensures CorrectedAgeParts(today, birth).0 != 0 ==>
      ParseInt(s, 10) == Int(CorrectedAgeParts(today, birth).0)
  {
    var (years, months) := CorrectedAgeParts(today, birth);
    if years == 0 then
      ParseIntOfIntToString(months, " months");
      IntToString(months) + " months"
    else
      var tail := " years and " + IntToString(months) + " months";
      ParseIntOfIntToString(years, tail);
      IntToString(years) + tail
  }

  /** "<m> months": the number, then exactly " months". */
  lemma MonthsTextRead(m: int)
    ensures var t := IntToString(m) + " months";
      |t| == |IntToString(m)| + 7 && t[..|IntToString(m)|] == IntToString(m) &&
      t[|IntToString(m)|..] == " months" && ParseInt(t, 10) == Int(m)
  {
    ParseIntOfIntToString(m, " months");
  }

  /** "<y> years and <m> months": the year count and " years and " make up the first
      |y| + 11 characters, and the rest is "<m> months", which `parseInt` reads as m. */
  lemma YearsAndMonthsTextRead(y: int, m: int)
    ensures var ys := IntToString(y);
      var t := ys + (" years and " + IntToString(m) + " months");
      |t| >= |ys| + 11 && t[..|ys| + 11] == ys + " years and " &&
      t[|ys| + 11..] == IntToString(m) + " months" && ParseInt(t[|ys| + 11..], 10) == Int(m)
  {
    var ys, ms := IntToString(y), IntToString(m);
    var t := ys + (" years and " + ms + " months");
    assert t == (ys + " years and ") + (ms + " months");
    ParseIntOfIntToString(m, " months");
  }

  /** The text as written, part by part: with a zero year count exactly the
      zero-year month count and " months"; otherwise the year count, " years and ",
      and then the raw month difference of the two dates, read back by `parseInt`,
      and " months". */
  lemma AgeTextParts(today: CalendarDate, birth: CalendarDate)
    ensures var s, n := AgeText(today, birth), AgeInYears(today, birth);
      n == 0 ==> s == IntToString(ZeroYearMonths(today, birth)) + " months"
    ensures var s, y := AgeText(today, birth), IntToString(AgeInYears(today, birth));
      AgeInYears(today, birth) != 0 ==>
        |s| >= |y| + 11 && s[..|y| + 11] == y + " years and " &&
        s[|y| + 11..] == IntToString(today.month - birth.month) + " months" &&
        ParseInt(s[|y| + 11..], 10) == Int(today.month - birth.month)
  {
    if AgeInYears(today, birth) != 0 {
      YearsAndMonthsTextRead(AgeInYears(today, birth), today.month - birth.month);
    }
  }

  /** The corrected text, part by part: with no whole year exactly the month count
      and " months"; otherwise the year count, " years and ", and the months since
      the last birthday, which `parseInt` reads back and which lie in 0..11, and
      " months". */
  lemma CorrectedAgeTextParts(today: CalendarDate, birth: CalendarDate)
    ensures var s, (years, months) := CorrectedAgeText(today, birth), CorrectedAgeParts(today, birth);
      years == 0 ==> s == IntToString(months) + " months" && 0 <= months < 12
    ensures var s, (years, months) := CorrectedAgeText(today, birth), CorrectedAgeParts(today, birth);
      var y := IntToString(years);
      years != 0 ==>
        |s| >= |y| + 11 && s[..|y| + 11] == y + " years and " &&
        s[|y| + 11..] == IntToString(months) + " months" &&
        ParseInt(s[|y| + 11..], 10) == Int(months) && 0 <= months < 12
  {
    var (years, months) := CorrectedAgeParts(today, birth);
    if years != 0 {
      YearsAndMonthsTextRead(years, months);
    }
  }

  /** The corrected text never shows a negative month count. */
  lemma CorrectedAgeTextExample()
    ensures CorrectedAgeText(CalendarDate(2023, 3, 1), CalendarDate(2020, 6, 1)) == "2 years and 9 months"
    ensures CorrectedAgeText(CalendarDate(2023, 2, 10), CalendarDate(2023, 0, 15)) == "1 months"
  {
    SmallNumerals();
    ExampleTexts();
    var today, birth := CalendarDate(2023, 3, 1), CalendarDate(2020, 6, 1);
    assert CorrectedAgeParts(today, birth) == (2, 9) by {
      assert FullMonths(today, birth) == 33;
    }
    assert CorrectedAgeText(today, birth) == "2" + (" years and " + "9" + " months");
    var today2, birth2 := CalendarDate(2023, 2, 10), CalendarDate(2023, 0, 15);
    assert CorrectedAgeParts(today2, birth2) == (0, 1) by {
      assert FullMonths(today2, birth2) == 1;
    }
    assert CorrectedAgeText(today2, birth2) == "1" + " months";
  }

  /** English ordinal suffix of a day number, "th" for 11 to 13; the last digit
      is taken with JS `%`, so a negative day ends in "th". */
  function OrdinalSuffix(day: int): (s: string)
    ensures 11 <= day <= 13 ==> s == "th"
    ensures s == "st" || s == "nd" || s == "rd" || s == "th"
  {
    if 11 <= day <= 13 then "th"
    else
      var last := JsRem(day, 10);
      if last == 1 then "st"
      else if last == 2 then "nd"
      else if last == 3 then "rd"
      else "th"
  }

  /** Over the days of a month, "st" is exactly 1, 21 and 31, "nd" exactly 2 and 22,
      "rd" exactly 3 and 23, and every other day is "th". */
  lemma OrdinalSuffixOfMonthDays(day: int)
    requires 1 <= day <= 31
    ensures OrdinalSuffix(day) == "st" <==> day == 1 || day == 21 || day == 31
    ensures OrdinalSuffix(day) == "nd" <==> day == 2 || day == 22
    ensures OrdinalSuffix(day) == "rd" <==> day == 3 || day == 23
  {
  }

  /** JS `%` keeps the sign: day -9 ends in "th", not in "st" as a Euclidean
      remainder of 1 would give. */
  lemma OrdinalSuffixOfNegative()
    ensures OrdinalSuffix(-9) == "th"
    ensures OrdinalSuffix(-21) == "th"
  {
  }

  /** "<day><suffix> of <month>, <year>" with the month name passed in: the day,
      its two-letter ordinal suffix, " of ", the month name, ", " and the year. */
  function FormatDateWithOrdinal(day: int, monthName: string, year: int): (s: string)
    ensures var d, n := |IntToString(day)|, |monthName|;
      |s| == d + 8 + n + |IntToString(year)| &&
      s[..d] == IntToString(day) && s[d..d + 2] == OrdinalSuffix(day) && s[d + 2..d + 6] == " of " &&
      s[d + 6..d + 6 + n] == monthName && s[d + 6 + n..d + 8 + n] == ", " &&
      s[d + 8 + n..] == IntToString(year)
  {
    var suffix := OrdinalSuffix(day);
    DateTextPieces(IntToString(day), suffix, monthName, IntToString(year));
    IntToString(day) + (suffix + " of " + monthName + ", " + IntToString(year))
  }

  /** `parseInt` reads the day back from the start of the date text. */
  lemma FormatDateWithOrdinalReadsDay(day: int, monthName: string, year: int)
    ensures ParseInt(FormatDateWithOrdinal(day, monthName, year), 10) == Int(day)
  {
    var tail := OrdinalSuffix(day) + " of " + monthName + ", " + IntToString(year);
    ParseIntOfIntToString(day, tail);
  }

  /** Where each piece of "<d><x> of <m>, <y>" lies. */
  lemma DateTextPieces(d: string, x: string, m: string, y: string)
    requires |x| == 2
    ensures var s := d + (x + " of " + m + ", " + y);
      |s| == |d| + 8 + |m| + |y| &&
      s[..|d|] == d && s[|d|..|d| + 2] == x && s[|d| + 2..|d| + 6] == " of " &&
      s[|d| + 6..|d| + 6 + |m|] == m && s[|d| + 6 + |m|..|d| + 8 + |m|] == ", " &&
      s[|d| + 8 + |m|..] == y
  {
    var s := d + (x + " of " + m + ", " + y);
    assert s == d + x + " of " + m + ", " + y;
  }

  const PetUpdated := "Pet details updated successfully!"

  /** `handleUpdatePet`: re-fetches the pet; on 200 the shown pet becomes the
      response with a success alert, any other status or a failure keeps the pet with
      an error alert; the edit dialog is closed on every path. */
  method HandleUpdatePet(outcome: Outcome<Pet>, shown: Pet) returns (alert: Alert, newShown: Pet, dialogOpen: bool)
    ensures !dialogOpen
    ensures ResolvedWith(outcome, 200) ==> newShown == outcome.data && alert == SuccessAlert(PetUpdated)
    ensures outcome.Resolved? && outcome.status != 200 ==> newShown == shown && alert == ErrorAlert(UnexpectedStatus)
    ensures !outcome.Resolved? ==> newShown == shown && alert == ErrorAlert(NetworkUnreachable)
    ensures alert.severity == Some(Success) <==> ResolvedWith(outcome, 200)
  {
    newShown := shown;
    if outcome.Resolved? {
      if outcome.status == 200 {
        newShown := outcome.data;
        alert := SuccessAlert(PetUpdated);
      } else {
        alert := ErrorAlert(UnexpectedStatus);
      }
    } else {
      alert := ErrorAlert(NetworkUnreachable);
    }
    dialogOpen := false;
  }
}
