/** The entities of the application's shared type definitions that the
    modelled core works on. Salaries are integers in units of 10,000 won
    (만원). */
module Types {
  import opened Common

  /** EducationLevelId. */
  datatype Education = HighSchool | Associate | Bachelor | Master
  {
    /** Position in the education order, lowest first. */
    function Rank(): nat
    {
      match this
      case HighSchool => 0
      case Associate => 1
      case Bachelor => 2
      case Master => 3
    }
  }

  /** EngineerLevelId: the four software-engineer grades. */
  datatype EngineerLevel = Beginner | Intermediate | Advanced | Expert
  {
    function Rank(): nat
    {
      match this
      case Beginner => 0
      case Intermediate => 1
      case Advanced => 2
      case Expert => 3
    }
  }

  /** SalaryEvaluation: the low / middle / high salary of one experience year;
      each may be unset (null). */
  datatype Evaluation = Evaluation(low: Option<int>, middle: Option<int>, high: Option<int>)
  {
    /** The value of one field. */
    function Get(f: Field): Option<int>
    {
      match f
      case Low => low
      case Middle => middle
      case High => high
    }
  }

  const EmptyEvaluation: Evaluation := Evaluation(None, None, None)

  /** The three editable fields of an Evaluation. */
  datatype Field = Low | Middle | High

  /** YearlySalaryTable: experience year (the key "1".."20" read as a number)
      to its evaluation. */
  type YearlyTable = map<int, Evaluation>

  /** CompanySalaryTableData: one yearly table per education level. */
  type CompanyTable = map<Education, YearlyTable>

  /** The company standard handed to the salary service: either a sentence
      describing a grade's salary range (manual mode) or one year's
      evaluation (auto mode). */
  datatype CompanyStandard = Description(text: string) | Tier(evaluation: Evaluation)
}
