/** The engineer-level calculator: years of experience and education to one of
    the four software-engineer grades. */
module Logic {
  import opened Common
  import opened Types

  /** calculateEngineerLevel: a per-education staircase of thresholds; no
      education means beginner. */
  function CalculateEngineerLevel(years: int, education: Option<Education>): (level: EngineerLevel)
    ensures education.None? ==> level == Beginner
    ensures education.Some? ==> level.Rank() == StepsReached(years, EntryYear(education.value))
  {
    match education
    case None => Beginner
    case Some(Master) =>
      if years >= 10 then Expert else if years >= 7 then Advanced
      else if years >= 4 then Intermediate else Beginner
    case Some(Bachelor) =>
      if years >= 13 then Expert else if years >= 10 then Advanced
      else if years >= 7 then Intermediate else Beginner
    case Some(Associate) =>
      if years >= 16 then Expert else if years >= 13 then Advanced
      else if years >= 10 then Intermediate else Beginner
    case Some(HighSchool) =>
      if years >= 19 then Expert else if years >= 16 then Advanced
      else if years >= 13 then Intermediate else Beginner
  }

  /** The first year of the intermediate grade for each education. */
  function EntryYear(e: Education): int
  {
    match e
    case Master => 4
    case Bachelor => 7
    case Associate => 10
    case HighSchool => 13
  }

  /** Reference definition: every education uses the same staircase of three
      steps, three years apart, starting at its entry year; the rank is the
      number of steps reached. */
  function StepsReached(years: int, entry: int): (steps: nat)
    ensures steps <= 3
  {
    (if years >= entry then 1 else 0) + (if years >= entry + 3 then 1 else 0)
      + (if years >= entry + 6 then 1 else 0)
  }

  /** The thresholds are master 4/7/10, bachelor 7/10/13, associate 10/13/16 and
      high school 13/16/19; the entry years step down by three per education
      rank. */
  lemma Thresholds(years: int, e: Education)
    ensures CalculateEngineerLevel(years, Some(e)).Rank() == StepsReached(years, EntryYear(e))
    ensures EntryYear(e) == 13 - 3 * e.Rank()
  {
  }

  /** Without an education the level is always beginner. */
  lemma NoEducationIsBeginner(years: int)
    ensures CalculateEngineerLevel(years, None) == Beginner
  {
  }

  /** More years never give a lower level. */
  lemma MonotoneInYears(y1: int, y2: int, education: Option<Education>)
    requires y1 <= y2
    ensures CalculateEngineerLevel(y1, education).Rank() <= CalculateEngineerLevel(y2, education).Rank()
  {
    if education.Some? {
      Thresholds(y1, education.value);
      Thresholds(y2, education.value);
    }
  }

  /** For equal years a higher education never gives a lower level. */
  lemma MonotoneInEducation(years: int, e1: Education, e2: Education)
    requires e1.Rank() <= e2.Rank()
    ensures CalculateEngineerLevel(years, Some(e1)).Rank() <= CalculateEngineerLevel(years, Some(e2)).Rank()
  {
    Thresholds(years, e1);
    Thresholds(years, e2);
  }

  /** Under four years every education gives beginner. */
  lemma UnderFourYearsIsBeginner(years: int, education: Option<Education>)
    requires years < 4
    ensures CalculateEngineerLevel(years, education) == Beginner
  {
  }
}
