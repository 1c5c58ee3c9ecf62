/** The two pet cards in the pet lists: the summary line, the picture and the
    profile link. Both cards compute the same summary and link; they differ in the
    picture. */
module PetCards {
  import opened Js
  import opened Models
  import opened Age
  import opened ImageUtils

  function GenderWord(isMale: bool): (w: string)
    ensures w == "Male" <==> isMale
    ensures w == "Female" <==> !isMale
  {
    if isMale then "Male" else "Female"
  }

  /** "<weight> kg". */
  function WeightText(weight: int): string
  {
    IntToString(weight) + " kg"
  }

  /** " years, <weight> kg". */
  function AfterAge(weight: int): string
  {
    " years, " + WeightText(weight)
  }

  /** "<age> years, <weight> kg". */
  function AgeAndWeight(age: int, weight: int): string
  {
    IntToString(age) + AfterAge(weight)
  }

  /** The part of the summary after type and breed. */
  function SummaryTail(isMale: bool, age: int, weight: int): string
  {
    (GenderWord(isMale) + ", ") + AgeAndWeight(age, weight)
  }

  /** "<type>, <breed>, Male|Female, <age> years, <weight> kg". */
  function Summary(p: Pet, today: CalendarDate): (s: string)
    ensures var head := p.animalType + ", " + p.breed + ", ";
      |s| > |head| && s[..|head|] == head &&
      s[|head|..] == SummaryTail(p.isMale, AgeInYears(today, p.dateOfBirth), p.weight)
  {
    var head := p.animalType + ", " + p.breed + ", ";
    var tail := SummaryTail(p.isMale, AgeInYears(today, p.dateOfBirth), p.weight);
    assert (head + tail)[|head|..] == tail;
    assert (head + tail)[..|head|] == head;
    head + tail
  }

  /** Equal texts with equal prefixes have equal remainders. */
  lemma CancelPrefix(p: string, x: string, y: string)
    requires p + x == p + y
    ensures x == y
  {
    assert x == (p + x)[|p|..];
    assert y == (p + y)[|p|..];
  }

  lemma WeightTextInjective(w1: int, w2: int)
    requires WeightText(w1) == WeightText(w2)
    ensures w1 == w2
  {
    ParseIntOfIntToString(w1, " kg");
    ParseIntOfIntToString(w2, " kg");
  }

  /** The age and weight text determines both numbers. */
  lemma AgeAndWeightInjective(a1: int, w1: int, a2: int, w2: int)
    requires AgeAndWeight(a1, w1) == AgeAndWeight(a2, w2)
    ensures a1 == a2 && w1 == w2
  {
    ParseIntOfIntToString(a1, AfterAge(w1));
    ParseIntOfIntToString(a2, AfterAge(w2));
    CancelPrefix(IntToString(a1), AfterAge(w1), AfterAge(w2));
    CancelPrefix(" years, ", WeightText(w1), WeightText(w2));
    WeightTextInjective(w1, w2);
  }

  /** The text after type and breed determines the gender, the age and the weight. */
  lemma SummaryTailInjective(m1: bool, a1: int, w1: int, m2: bool, a2: int, w2: int)
    requires SummaryTail(m1, a1, w1) == SummaryTail(m2, a2, w2)
    ensures m1 == m2 && a1 == a2 && w1 == w2
  {
    var t := SummaryTail(m1, a1, w1);
    assert t[0] == GenderWord(m1)[0] && t[0] == GenderWord(m2)[0];
    CancelPrefix(GenderWord(m1) + ", ", AgeAndWeight(a1, w1), AgeAndWeight(a2, w2));
    AgeAndWeightInjective(a1, w1, a2, w2);
  }

  /** Two pets of the same type and breed with the same summary on the same day
      agree on gender, age and weight. */
  lemma SummaryDeterminesGenderAgeWeight(p1: Pet, p2: Pet, today: CalendarDate)
    requires p1.animalType == p2.animalType && p1.breed == p2.breed
    requires Summary(p1, today) == Summary(p2, today)
    ensures p1.isMale == p2.isMale && p1.weight == p2.weight
    ensures AgeInYears(today, p1.dateOfBirth) == AgeInYears(today, p2.dateOfBirth)
  {
    SummaryTailInjective(p1.isMale, AgeInYears(today, p1.dateOfBirth), p1.weight,
                         p2.isMale, AgeInYears(today, p2.dateOfBirth), p2.weight);
  }

  /** The route a click on either card navigates to: "/" and the pet id. */
  function ProfilePath(p: Pet): (path: string)
    ensures |path| >= 2 && path[0] == '/'
    ensures ParseInt(path[1..], 10) == Int(p.id)
  {
    var path := "/" + IntToString(p.id);
    assert path[1..] == IntToString(p.id) + [];
    ParseIntOfIntToString(p.id, []);
    path
  }

  /** Different pets link to different routes. */
  lemma ProfilePathInjective(p1: Pet, p2: Pet)
    requires ProfilePath(p1) == ProfilePath(p2)
    ensures p1.id == p2.id
  {
  }

  /** The picture of the card in the home list: a non-empty image as a PNG data URL,
      otherwise none (the card shows an icon). */
  function CardImage(p: Pet): (r: Option<string>)
    ensures r.Some? <==> Truthy(p.image)
    ensures r.Some? ==> StripDataUrlPrefix(r.value, Png) == Some(p.image)
  {
    if Truthy(p.image) then
      StripAfterAdd(p.image, Png);
      Some(AddDataUrlPrefix(p.image, Png))
    else None
  }

  /** Stands for the picture bundled with the application. */
  const DefaultPicture := "pet-picture.png"

  /** The picture of the card on the pets page: the image text itself when it is
      not empty, with no data-URL prefix, otherwise the bundled picture. */
  function PetsPageImage(p: Pet): (src: string)
    ensures Truthy(p.image) ==> src == p.image
    ensures !Truthy(p.image) ==> src == DefaultPicture
  {
    if Truthy(p.image) then p.image else DefaultPicture
  }
}
