/**
 * `_get_age_group`: a birth date to one of four ordinal age-bracket labels, relative to the
 * fixed reference year 2024, or the sentinel "Nepoznato" ("unknown") for a missing date.
 */
module AgeClassifier {
  import opened Wrappers
  import opened Timestamps
  import opened Rows

  const ReferenceYear := 2024

  const Unknown := "Nepoznato"
  const Under25 := "1) < 25"
  const From25To34 := "2) 25-34"
  const From35To44 := "3) 35-44"
  const From45 := "4) 45+"

  /** Exactly one bracket applies to each age; each label is chosen for its range only. */
  function Bracket(age: int): (g: string)
    ensures g == Under25 <==> age < 25
    ensures g == From25To34 <==> 25 <= age < 35
    ensures g == From35To44 <==> 35 <= age < 45
    ensures g == From45 <==> 45 <= age
  {
    if age < 25 then Under25
    else if 25 <= age < 35 then From25To34
    else if 35 <= age < 45 then From35To44
    else From45
  }

  /**
   * `_get_age_group(birthdate_str)`: "Nepoznato" for a missing or empty date; otherwise the
   * bracket of 2024 minus the parsed year, and the parser's error when the text does not parse.
   */
  function GetAgeGroup(parse: Parser, birthdate: Option<string>): (r: Result<string, Failure>)
    ensures birthdate.None? || birthdate.value == "" ==> r == Success(Unknown)
    ensures r.Failure? <==> birthdate.Some? && birthdate.value != "" && parse(birthdate.value).None?
    ensures birthdate.Some? && birthdate.value != "" && parse(birthdate.value).Some? ==>
      r == Success(Bracket(ReferenceYear - parse(birthdate.value).value.year))
  {
    if birthdate.None? || birthdate.value == "" then Success(Unknown)
    else
      match TimestampOf(parse, birthdate, "birthdate")
      case Failure(e) => Failure(e)
      case Success(t) => Success(Bracket(ReferenceYear - t.year))
  }
}
