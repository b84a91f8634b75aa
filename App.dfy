/** The application shell around the salary service: the company salary
    table it keeps in state (its initial contents and the cell edit), the
    company standard it hands to the service in automatic and manual career
    mode, and the competency summary it shows while scores are entered. */
module App {
  import opened Common
  import opened Types
  import opened JsText
  import opened Logic
  import opened GeminiService
  import SalaryAdjustment
  import opened CompanySalaryTable

  // ---------------------------------------------------------------------
  // The initial table

  /** EDUCATION_LEVELS, in display order. */
  const EducationLevels: seq<Education> := [HighSchool, Associate, Bachelor, Master]

  /** The built-in yearly table of an education, falling back to bachelor's. */
  function DefaultsFor(defaults: map<Education, YearlyTable>, e: Education): (table: YearlyTable)
    requires Bachelor in defaults
    ensures e in defaults ==> table == defaults[e]
    ensures table in defaults.Values
  {
    if e in defaults then defaults[e] else defaults[Bachelor]
  }

  /** The initial entry of a year: the built-in one, or all null. */
  function InitialEntry(source: YearlyTable, year: int): Evaluation
  {
    if year in source then source[year] else EmptyEvaluation
  }

  /** The yearly table holds exactly the years 1..20. */
  ghost predicate HoldsEveryYear(yearly: YearlyTable)
  {
    forall year :: year in yearly <==> 1 <= year <= 20
  }

  /** initializeCompanySalaryTable: every education level gets years 1..20,
      each the built-in entry or all null where the built-in table has none. */
  method InitializeCompanySalaryTable(defaults: map<Education, YearlyTable>) returns (table: CompanyTable)
    requires Bachelor in defaults
    ensures table.Keys == {HighSchool, Associate, Bachelor, Master}
    ensures forall e :: e in table ==> HoldsEveryYear(table[e])
    ensures forall e, y :: e in table && y in table[e] ==>
              table[e][y] == InitialEntry(DefaultsFor(defaults, e), y)
  {
    table := map[];
    var k := 0;
    while k < |EducationLevels|
      invariant 0 <= k <= |EducationLevels|
      invariant table.Keys == set j | 0 <= j < k :: EducationLevels[j]
      invariant forall e :: e in table ==> HoldsEveryYear(table[e])
      invariant forall e, y :: e in table && y in table[e] ==>
                  table[e][y] == InitialEntry(DefaultsFor(defaults, e), y)
    {
      var e := EducationLevels[k];
      var salaryData := DefaultsFor(defaults, e);
      var yearly: YearlyTable := map[];
      var i := 1;
      while i <= 20
        invariant 1 <= i <= 21
        invariant forall y :: y in yearly <==> 1 <= y < i
        invariant forall y :: y in yearly ==> yearly[y] == InitialEntry(salaryData, y)
      {
        yearly := yearly[i := InitialEntry(salaryData, i)];
        i := i + 1;
      }
      table := table[e := yearly];
      k := k + 1;
    }
    assert EducationLevels[0] == HighSchool && EducationLevels[1] == Associate;
    assert EducationLevels[2] == Bachelor && EducationLevels[3] == Master;
  }

  // ---------------------------------------------------------------------
  // Editing a cell

  /** Math.max(0, v + delta) for a set value; null stays null. */
  function Shifted(v: Option<int>, delta: int): (shifted: Option<int>)
    ensures shifted.Some? <==> v.Some?
    ensures v.Some? ==> shifted.value >= 0 && shifted.value >= v.value + delta
    ensures v.Some? && shifted.value > 0 ==> shifted.value == v.value + delta
  {
    if v.Some? then Some(if v.value + delta >= 0 then v.value + delta else 0) else None
  }

  /** The tier with one field replaced. */
  function WithField(t: Evaluation, f: Field, v: Option<int>): (r: Evaluation)
    ensures r.Get(f) == v
    ensures forall g: Field :: g != f ==> r.Get(g) == t.Get(g)
  {
    match f
    case Low => t.(low := v)
    case Middle => t.(middle := v)
    case High => t.(high := v)
  }

  /** The edited tier: setting high to a number when the previous high is set
      moves low and middle along by the same amount, floored at 0; every other
      edit sets just the edited field. A missing tier starts all null. */
  function EditTier(previous: Option<Evaluation>, f: Field, value: Option<int>): (r: Evaluation)
    ensures r.Get(f) == value
    ensures var current := if previous.Some? then previous.value else EmptyEvaluation;
      forall g: Field :: g != f && current.Get(g).None? ==> r.Get(g).None?
    ensures !(f == High && value.Some? && previous.Some? && previous.value.high.Some?) ==>
              forall g: Field :: g != f ==> r.Get(g) == (if previous.Some? then previous.value else EmptyEvaluation).Get(g)
    ensures f == High && value.Some? && previous.Some? && previous.value.high.Some? ==>
              forall g: Field :: g != High && previous.value.Get(g).Some? ==>
                r.Get(g).Some? && r.Get(g).value >= 0
                && (r.Get(g).value > 0 ==>
                      value.value - r.Get(g).value == previous.value.high.value - previous.value.Get(g).value)
  {
    var current := if previous.Some? then previous.value else EmptyEvaluation;
    if f == High && value.Some? && previous.Some? && previous.value.high.Some? then
      var delta := value.value - previous.value.high.value;
      Evaluation(Shifted(current.low, delta), Shifted(current.middle, delta), value)
    else WithField(current, f, value)
  }

  /** The yearly table of an education, empty when there is none. */
  function YearsOf(t: CompanyTable, e: Education): YearlyTable
  {
    if e in t then t[e] else map[]
  }

  /** The tier of an education and year, if the table has one. */
  function TierOf(t: CompanyTable, e: Education, year: int): Option<Evaluation>
  {
    if year in YearsOf(t, e) then Some(YearsOf(t, e)[year]) else None
  }

  /** The table after handleCompanySalaryChange. */
  function ChangeCompanySalary(t: CompanyTable, e: Education, year: int, f: Field, value: Option<int>): (r: CompanyTable)
    ensures r.Keys == t.Keys + {e}
    ensures YearsOf(r, e).Keys == YearsOf(t, e).Keys + {year}
  {
    t[e := YearsOf(t, e)[year := EditTier(TierOf(t, e, year), f, value)]]
  }

  /** The edit changes that one tier and nothing else: every other education
      and every other year keeps its entry, or its absence. */
  lemma ChangeTouchesOneTier(t: CompanyTable, e: Education, year: int, f: Field, value: Option<int>)
    ensures var r := ChangeCompanySalary(t, e, year, f, value);
      && TierOf(r, e, year) == Some(EditTier(TierOf(t, e, year), f, value))
      && (forall e', y' :: (e', y') != (e, year) ==> TierOf(r, e', y') == TierOf(t, e', y'))
      && (forall e' :: e' != e ==> (e' in r <==> e' in t))
  {
  }

  /** Editing low or middle, setting high to null, or editing a tier without a
      previous high sets exactly the edited field. */
  lemma PlainEditSetsOneField(previous: Option<Evaluation>, f: Field, value: Option<int>)
    requires !(f == High && value.Some? && previous.Some? && previous.value.high.Some?)
    ensures var current := if previous.Some? then previous.value else EmptyEvaluation;
      && EditTier(previous, f, value).Get(f) == value
      && forall g: Field :: g != f ==> EditTier(previous, f, value).Get(g) == current.Get(g)
  {
  }

  /** Setting high from h to v moves set low and middle values by v - h,
      floored at 0; unset ones stay unset. */
  lemma HighEditShifts(p: Evaluation, v: int)
    requires p.high.Some?
    ensures var r := EditTier(Some(p), High, Some(v));
      && r.high == Some(v)
      && (r.middle.Some? <==> p.middle.Some?) && (r.low.Some? <==> p.low.Some?)
      && (p.middle.Some? ==> r.middle.value == MaxInt(0, p.middle.value + (v - p.high.value)))
      && (p.low.Some? ==> r.low.value == MaxInt(0, p.low.value + (v - p.high.value)))
  {
  }

  function MaxInt(a: int, b: int): int { if a >= b then a else b }

  /** Setting high to its current value changes nothing, as long as the set
      values are not negative (a negative one would be raised to 0). */
  lemma SameHighUnchanged(p: Evaluation)
    requires p.high.Some?
    requires p.low.Some? ==> p.low.value >= 0
    requires p.middle.Some? ==> p.middle.value >= 0
    ensures EditTier(Some(p), High, p.high) == p
  {
  }

  /** A tier with low <= middle <= high keeps that order when high is set to a
      non-negative value. */
  lemma HighEditKeepsOrder(p: Evaluation, v: int)
    requires p.low.Some? && p.middle.Some? && p.high.Some?
    requires p.low.value <= p.middle.value <= p.high.value
    requires v >= 0
    ensures var r := EditTier(Some(p), High, Some(v));
      r.low.Some? && r.middle.Some? && r.high.Some? && r.low.value <= r.middle.value <= r.high.value
  {
  }

  /** Setting high to v and then back restores the tier whenever the shift
      did not have to clamp anything at 0. */
  lemma HighEditUndone(p: Evaluation, v: int)
    requires p.high.Some?
    requires p.low.Some? ==> 0 <= p.low.value && 0 <= p.low.value + (v - p.high.value)
    requires p.middle.Some? ==> 0 <= p.middle.value && 0 <= p.middle.value + (v - p.high.value)
    ensures EditTier(Some(EditTier(Some(p), High, Some(v))), High, p.high) == p
  {
  }

  /** The company salary table the application keeps in its state. */
  class CompanySalaryStore {
    var table: CompanyTable

    /** The store starts from the initial table. */
    constructor (defaults: map<Education, YearlyTable>)
      requires Bachelor in defaults
      ensures table.Keys == {HighSchool, Associate, Bachelor, Master}
      ensures forall e :: e in table ==> HoldsEveryYear(table[e])
    {
      var initial := InitializeCompanySalaryTable(defaults);
      table := initial;
    }

    /** handleCompanySalaryChange: copy the table, make sure the tier exists,
        edit its fields in the copy and store the copy. */
    method HandleCompanySalaryChange(e: Education, year: int, f: Field, value: Option<int>)
      modifies this
      ensures table == ChangeCompanySalary(old(table), e, year, f, value)
    {
      var newState := table;
      if e !in newState {
        newState := newState[e := map[]];
      }
      if year !in newState[e] {
        newState := newState[e := newState[e][year := EmptyEvaluation]];
      }
      var current := newState[e][year];
      var previous := TierOf(table, e, year);
      assert current == if previous.Some? then previous.value else EmptyEvaluation;
      if f == High && value.Some? && previous.Some? {
        var previousHigh := previous.value.high;
        if previousHigh.Some? {
          var delta := value.value - previousHigh.value;
          current := current.(high := value);
          if current.middle.Some? {
            current := current.(middle := Some(MaxInt(0, current.middle.value + delta)));
          }
          if current.low.Some? {
            current := current.(low := Some(MaxInt(0, current.low.value + delta)));
          }
        } else {
          current := current.(high := value);
        }
      } else {
        current := WithField(current, f, value);
      }
      assert current == EditTier(previous, f, value);
      assert newState[e][year := current] == YearsOf(table, e)[year := current];
      newState := newState[e := newState[e][year := current]];
      assert newState == table[e := YearsOf(table, e)[year := EditTier(TierOf(table, e, year), f, value)]];
      table := newState;
    }
  }

  // ---------------------------------------------------------------------
  // The company standard handed to the service

  /** The year key of automatic mode: the experience clamped to 1..20. */
  function YearKey(years: int): (key: int)
    ensures 1 <= key <= 20
    ensures 1 <= years <= 20 ==> key == years
    ensures years < 1 ==> key == 1
    ensures years > 20 ==> key == 20
  {
    var capped := if years <= 20 then years else 20;
    if capped >= 1 then capped else 1
  }

  /** Automatic mode: the table's tier at the clamped year, if any. */
  function AutoStandard(t: CompanyTable, e: Education, years: int): (standard: Option<CompanyStandard>)
    ensures standard.Some? <==> TierOf(t, e, YearKey(years)).Some?
    ensures standard.Some? ==> standard.value.Tier? && standard.value.evaluation == TierOf(t, e, YearKey(years)).value
  {
    var key := YearKey(years);
    if e in t && key in t[e] then Some(Tier(t[e][key])) else None
  }

  /** On a table holding years 1..20 for the education, automatic mode always
      finds a tier, whatever the experience. */
  lemma AutoStandardFound(t: CompanyTable, e: Education, years: int)
    requires e in t && HoldsEveryYear(t[e])
    ensures AutoStandard(t, e, years) == Some(Tier(t[e][YearKey(years)]))
  {
    var key := YearKey(years);
  }

  /** The name of an engineer level in ENGINEER_LEVELS. */
  function EngineerLevelName(l: EngineerLevel): string
  {
    LevelNames[l.Rank()] + " 기술자"
  }

  /** levels.find(l => l.name === name). */
  function FindByName(bands: seq<Band>, name: string): (r: Option<Band>)
    ensures r.Some? ==> r.value.name == name && r.value in bands
  {
    if bands == [] then None
    else if bands[0].name == name then Some(bands[0])
    else FindByName(bands[1..], name)
  }

  /** find returns the first band carrying the name. */
  lemma {:induction false} FindByNameFirst(bands: seq<Band>, i: nat)
    requires i < |bands|
    requires forall j :: 0 <= j < i ==> bands[j].name != bands[i].name
    ensures FindByName(bands, bands[i].name) == Some(bands[i])
  {
    if i > 0 {
      FindByNameFirst(bands[1..], i - 1);
    }
  }

  /** The grade band manual mode looks up: the level's name without the
      suffix " 기술자". */
  function ManualBand(e: Education, l: EngineerLevel): (band: Option<Band>)
    ensures band.Some? ==> band.value.name == ReplaceFirst(EngineerLevelName(l), " 기술자", "")
    ensures band.Some? ==> band.value in Structure(e).levels
  {
    FindByName(Structure(e).levels, ReplaceFirst(EngineerLevelName(l), " 기술자", ""))
  }

  /** Manual mode finds the band of the chosen level, in every education. */
  lemma ManualBandIsLevelBand(e: Education, l: EngineerLevel)
    ensures ManualBand(e, l) == Some(Structure(e).levels[l.Rank()])
  {
    var name := LevelNames[l.Rank()];
    ReplaceFirstAfter(name, " 기술자", "");
    assert name + "" == name;
    var levels := Structure(e).levels;
    assert |levels| == 4 && forall j :: 0 <= j < 4 ==> levels[j].name == LevelNames[j];
    FindByNameFirst(levels, l.Rank());
  }

  /** The years of the band manual mode looks up are exactly the years, out of
      1..20, for which the automatic calculator gives that level. */
  lemma ManualBandMatchesClassifier(e: Education, l: EngineerLevel, year: int)
    requires 1 <= year <= 20
    ensures var b := Structure(e).levels[l.Rank()];
      b.start <= year <= b.end <==> CalculateEngineerLevel(year, Some(e)) == l
  {
  }

  /** The sentence manual mode hands to the service. */
  function ManualDescription(levelName: string, startYear: int, startValue: int, endYear: int, endValue: int): (text: string)
    ensures Contains(text, levelName)
    ensures Contains(text, LocaleString(startValue) + "만원") && Contains(text, LocaleString(endValue) + "만원")
  {
    var head := "해당 등급(";
    var mid := ")은 " + NumberToString(startYear) + "년차(약 ";
    var start := LocaleString(startValue) + "만원";
    var between := ")에서 " + NumberToString(endYear) + "년차(약 ";
    var end := LocaleString(endValue) + "만원";
    var tail := ")까지의 범위를 가집니다.";
    ContainsSelf(levelName);
    ContainsExtendLeft(head, levelName, levelName);
    ContainsExtendRight(head + levelName, mid, levelName);
    ContainsSelf(start);
    ContainsExtendLeft(head + levelName + mid, start, start);
    ContainsExtendRight(head + levelName + mid, start, levelName);
    ContainsExtendRight(head + levelName + mid + start, between, levelName);
    ContainsExtendRight(head + levelName + mid + start, between, start);
    ContainsSelf(end);
    ContainsExtendLeft(head + levelName + mid + start + between, end, end);
    ContainsExtendRight(head + levelName + mid + start + between, end, levelName);
    ContainsExtendRight(head + levelName + mid + start + between, end, start);
    ContainsExtendRight(head + levelName + mid + start + between + end, tail, levelName);
    ContainsExtendRight(head + levelName + mid + start + between + end, tail, start);
    ContainsExtendRight(head + levelName + mid + start + between + end, tail, end);
    head + levelName + mid + start + between + end + tail
  }

  /** Manual mode: the band's first year contributes its middle if it is year
      1 and its high otherwise, the last year its high; the standard is a
      sentence, and only when both values are set. */
  function ManualStandard(t: CompanyTable, e: Education, l: EngineerLevel): (standard: Option<CompanyStandard>)
    ensures standard.Some? ==> standard.value.Description?
    ensures standard.Some? <==>
      && ManualBand(e, l).Some?
      && var b := ManualBand(e, l).value;
        && TierOf(t, e, b.start).Some? && TierOf(t, e, b.end).Some? && TierOf(t, e, b.end).value.high.Some?
        && TierOf(t, e, b.start).value.Get(if b.start == 1 then Middle else High).Some?
  {
    var info := ManualBand(e, l);
    if info.None? then None
    else
      var b := info.value;
      var startData := TierOf(t, e, b.start);
      var endData := TierOf(t, e, b.end);
      var startValue := if startData.None? then None
                        else if b.start == 1 then startData.value.middle else startData.value.high;
      var endValue := if endData.None? then None else endData.value.high;
      if startValue.Some? && endValue.Some? then
        Some(Description(ManualDescription(EngineerLevelName(l), b.start, startValue.value, b.end, endValue.value)))
      else None
  }

  /** The company standard handleSubmit computes: none without an education,
      the tier at the clamped year in automatic mode, the band sentence in
      manual mode when a level was chosen. */
  function CompanyStandardFor(t: CompanyTable, education: Option<Education>, automatic: bool,
                              years: int, manualLevel: Option<EngineerLevel>): (standard: Option<CompanyStandard>)
    ensures education.None? ==> standard.None?
    ensures automatic && standard.Some? ==> standard.value.Tier?
    ensures !automatic && standard.Some? ==> standard.value.Description? && manualLevel.Some?
  {
    if education.None? then None
    else if automatic then AutoStandard(t, education.value, years)
    else if manualLevel.Some? then ManualStandard(t, education.value, manualLevel.value)
    else None
  }

  /** Manual mode yields a sentence exactly when the band's start value and
      end value are both set, and the sentence names them; being text, it
      never gives the service a company middle or high, so the negotiation
      floor then rests on the previous salary alone. */
  lemma ManualStandardIsText(t: CompanyTable, e: Education, l: EngineerLevel)
    ensures var b := Structure(e).levels[l.Rank()];
      var startData := TierOf(t, e, b.start);
      var endData := TierOf(t, e, b.end);
      var startValue := if startData.None? then None
                        else if b.start == 1 then startData.value.middle else startData.value.high;
      var endValue := if endData.None? then None else endData.value.high;
      && (ManualStandard(t, e, l).Some? <==> startValue.Some? && endValue.Some?)
      && (ManualStandard(t, e, l).Some? ==>
            ManualStandard(t, e, l) == Some(Description(ManualDescription(
              EngineerLevelName(l), b.start, startValue.value, b.end, endValue.value))))
  {
    ManualBandIsLevelBand(e, l);
  }

  lemma ManualModeHasNoCompanyMiddle(t: CompanyTable, education: Option<Education>, years: int,
                                     manualLevel: Option<EngineerLevel>)
    ensures SalaryAdjustment.CompanyMiddle(CompanyStandardFor(t, education, false, years, manualLevel)) == None
    ensures SalaryAdjustment.CompanyHigh(CompanyStandardFor(t, education, false, years, manualLevel)) == None
  {
  }

  // ---------------------------------------------------------------------
  // The competency summary

  /** The scores entered so far, in order. */
  function Present(values: seq<Option<int>>): (scores: seq<int>)
    ensures |scores| <= |values|
    ensures forall i :: 0 <= i < |scores| ==> Some(scores[i]) in values
  {
    if values == [] then []
    else Present(values[..|values| - 1])
         + (if values[|values| - 1].Some? then [values[|values| - 1].value] else [])
  }

  /** Every criterion is scored exactly when no score is missing from the list. */
  lemma {:induction false} PresentAll(values: seq<Option<int>>)
    ensures |Present(values)| == |values| <==> forall i :: 0 <= i < |values| ==> values[i].Some?
    ensures (forall i :: 0 <= i < |values| ==> values[i].Some?) ==>
              forall i :: 0 <= i < |values| ==> Present(values)[i] == values[i].value
  {
    if values != [] {
      var init := values[..|values| - 1];
      PresentAll(init);
      assert forall i :: 0 <= i < |init| ==> init[i] == values[i];
    }
  }

  /** The grade label of an average score. */
  function SummaryGrade(average: real): (text: string)
    ensures text == GradeOfMean(average).Label()
  {
    if average < 2.0 then "추가 검토 필요"
    else if average <= 2.7 then "기본 역량 보유"
    else if average <= 3.5 then "우수 역량 보유"
    else "핵심 인재"
  }

  /** competencySummary: no role or a role without criteria gives none, and so
      does any criterion left unscored; otherwise the grade of the mean. */
  function CompetencySummary(criteria: Option<nat>, values: seq<Option<int>>): (summary: Option<string>)
    ensures summary.Some? ==> criteria.Some? && |Present(values)| == criteria.value > 0
    ensures summary.Some? ==>
              summary.value in [NeedsReview.Label(), Grade.Baseline.Label(), Strong.Label(), KeyTalent.Label()]
  {
    if criteria.None? || criteria.value == 0 then None
    else
      var scores := Present(values);
      if |scores| != criteria.value || |scores| == 0 then None
      else Some(SummaryGrade(Mean(scores)))
  }

  /** The summary appears exactly when the role has criteria and the entered
      scores number as many; with one value per criterion that is when none is
      missing. Its grade is the one the service derives from the same scores. */
  lemma SummaryAgreesWithService(criteria: Option<nat>, values: seq<Option<int>>)
    ensures CompetencySummary(criteria, values).Some? <==>
              criteria.Some? && criteria.value > 0 && |Present(values)| == criteria.value
    ensures criteria.Some? && |values| == criteria.value > 0 ==>
              (CompetencySummary(criteria, values).Some? <==> forall i :: 0 <= i < |values| ==> values[i].Some?)
    ensures CompetencySummary(criteria, values).Some? ==>
              CompetencySummary(criteria, values).value == ClassifyCompetency(Present(values)).value.Label()
  {
    PresentAll(values);
  }
}
