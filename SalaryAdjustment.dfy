/** The conservative salary-adjustment policy of fetchSalaryGuidance: the
    model's baseline market value and competency premium are treated as
    inputs, and the final recommendation is derived from them in five steps
    (premium, negotiation floor and interpolation, company-ceiling fallback,
    desired-salary cap, rounding to tens). */
module SalaryAdjustment {
  import opened Common
  import opened Types
  import opened GeminiService

  /** The baseline market value the first model call returns. */
  datatype BaselineSalary = BaselineSalary(min: int, avg: int, max: int)

  /** What the competency-premium call produced: its answer, or the value it
      threw. */
  datatype CompetencyAnswer = Answered(premium: int, grade: string) | Failed(error: Thrown)

  /** The inputs of the adjustment. `scores` are the rubric scores of the role
      evaluation (empty when none was given); `competency` is consulted only
      when those scores yield a grade, since only then is the call made. */
  datatype Request = Request(
    baseline: BaselineSalary,
    scores: seq<int>,
    competency: CompetencyAnswer,
    companyStandard: Option<CompanyStandard>,
    previousSalary: Option<int>,
    desiredSalary: Option<int>)

  /** The salary figures of the result object while the adjustment runs. */
  datatype Stage = Stage(min: real, avg: real, max: real, gap: Option<real>)

  /** The three figures after rounding to tens. */
  datatype Rounded = Rounded(min: int, avg: int, max: int)

  /** SalaryResultData as the service returns it (narrative fields left out). */
  datatype Recommendation = Recommendation(
    minSalary: int, avgSalary: int, maxSalary: int,
    potentialValueGap: Option<real>,
    baseline: BaselineSalary,
    competencyPremium: Option<int>,
    competencyGrade: Option<string>,
    desiredSalary: Option<int>,
    previousSalary: Option<int>)

  /** The service either completes or rethrows a rate-limit or credential
      failure of the competency call. */
  datatype Outcome = Completed(recommendation: Recommendation) | Rejected(kind: ErrorType)

  // ---------------------------------------------------------------------
  // The company standard and the negotiation floor

  /** companyMiddle: the middle value of a tabular company standard. */
  function CompanyMiddle(standard: Option<CompanyStandard>): (middle: Option<int>)
    ensures standard.None? || standard.value.Description? ==> middle.None?
    ensures middle.Some? ==> standard.Some? && standard.value.Tier? && middle == standard.value.evaluation.middle
  {
    if standard.Some? && standard.value.Tier? then standard.value.evaluation.middle else None
  }

  /** companyHigh: the high value of a tabular company standard. */
  function CompanyHigh(standard: Option<CompanyStandard>): (high: Option<int>)
    ensures standard.None? || standard.value.Description? ==> high.None?
    ensures high.Some? ==> standard.Some? && standard.value.Tier? && high == standard.value.evaluation.high
  {
    if standard.Some? && standard.value.Tier? then standard.value.evaluation.high else None
  }

  /** negotiationFloor: the larger of the previous salary and the company
      middle when both are truthy, otherwise `previousSalary || companyMiddle`. */
  function NegotiationFloor(previous: Option<int>, middle: Option<int>): (floor: Option<int>)
    ensures Truthy(floor) <==> Truthy(previous) || Truthy(middle)
    ensures Truthy(previous) && Truthy(middle) ==>
              floor.value == previous.value || floor.value == middle.value
    ensures Truthy(previous) && Truthy(middle) ==>
              floor.value >= previous.value && floor.value >= middle.value
    ensures Truthy(previous) && !Truthy(middle) ==> floor == previous
    ensures !Truthy(previous) && Truthy(middle) ==> floor == middle
  {
    if Truthy(previous) && Truthy(middle) then
      Some(if previous.value >= middle.value then previous.value else middle.value)
    else if Truthy(previous) then previous
    else middle
  }

  /** The interpolation of Step C applies: desired salary and floor are both
      truthy and the desired salary is above the floor. */
  predicate ConservativeApplies(desired: Option<int>, floor: Option<int>)
  {
    Truthy(desired) && Truthy(floor) && desired.value > floor.value
  }

  /** calculatedOffer: the floor moved toward the desired salary by the
      competency weight, rounded with Math.round. */
  function CalculatedOffer(floor: int, desired: int, weight: real): (offer: int)
    ensures floor <= desired && 0.0 <= weight <= 1.0 ==> floor <= offer <= desired
    ensures weight == 0.0 ==> offer == floor
  {
    JsRoundOfInt(floor);
    var d := (desired - floor) as real;
    var x := floor as real + d * weight;
    if floor <= desired && 0.0 <= weight <= 1.0 then
      ScaledAtMost(d, weight);
      assert floor as real + d == desired as real;
      JsRoundBetween(x, floor, desired);
      JsRound(x)
    else
      JsRound(x)
  }

  lemma ScaledAtMost(d: real, w: real)
    requires d >= 0.0 && 0.0 <= w <= 1.0
    ensures 0.0 <= d * w <= d
  {
    assert d * (1.0 - w) >= 0.0;
  }

  /** The interpolated offer never leaves [floor, desired], for every weight
      of the grade table. */
  lemma CalculatedOfferWithin(floor: int, desired: int, grade: Option<string>)
    requires floor < desired
    ensures floor <= CalculatedOffer(floor, desired, CompetencyWeight(grade)) <= desired
  {
    var w := CompetencyWeight(grade);
    var x := floor as real + (desired - floor) as real * w;
    assert (desired - floor) as real * w <= (desired - floor) as real;
    JsRoundBetween(x, floor, desired);
  }

  /** ceiling of Step D: the company high when truthy, otherwise 115% of the
      company middle. */
  function CompanyCeiling(middle: int, high: Option<int>): (ceiling: real)
    ensures Truthy(high) ==> ceiling == high.value as real
    ensures !Truthy(high) ==> ceiling - middle as real == middle as real * 0.15
  {
    if Truthy(high) then high.value as real else middle as real * 115.0 / 100.0
  }

  // ---------------------------------------------------------------------
  // The steps, as functions of the figures before them

  /** Step A: the premium is added to all three figures. */
  function AddPremium(s: Stage, premium: int): (r: Stage)
    ensures r.avg - s.avg == premium as real
    ensures r.max - r.avg == s.max - s.avg && r.avg - r.min == s.avg - s.min
    ensures r.gap == s.gap
  {
    s.(min := s.min + premium as real, avg := s.avg + premium as real, max := s.max + premium as real)
  }

  /** Step C: avg becomes finalOffer = min(offer, market value); min and max
      move by the same amount, min no lower than the baseline min; the gap is
      set when the market value exceeds the offer and deleted otherwise. */
  function ConservativeOffer(s: Stage, marketValue: real, baselineMin: int, offer: int): (r: Stage)
    ensures r.avg <= offer as real && r.avg <= marketValue
    ensures r.avg == offer as real || r.avg == marketValue
    ensures r.max - r.avg == s.max - s.avg
    ensures r.min >= baselineMin as real && r.min >= s.min - (s.avg - r.avg)
    ensures GapTracksValue(r, marketValue)
  {
    var finalOffer := MinReal(offer as real, marketValue);
    var adjustment := s.avg - finalOffer;
    Stage(MaxReal(baselineMin as real, s.min - adjustment), finalOffer, s.max - adjustment,
          if marketValue > finalOffer then Some(marketValue - finalOffer) else None)
  }

  /** Step D: above the ceiling, the three figures move down until avg is the
      ceiling, and the gap is set when the market value exceeds it. */
  function CapAtCeiling(s: Stage, marketValue: real, ceiling: real): (r: Stage)
    ensures s.avg <= ceiling ==> r == s
    ensures s.avg > ceiling ==> r.avg == ceiling
    ensures r.max - r.avg == s.max - s.avg && r.avg - r.min == s.avg - s.min
    ensures GapTracksValue(s, marketValue) ==> GapTracksValue(r, marketValue)
  {
    if s.avg > ceiling then
      var adjustment := s.avg - ceiling;
      Stage(s.min - adjustment, ceiling, s.max - adjustment,
            if marketValue > ceiling then Some(marketValue - ceiling) else s.gap)
    else s
  }

  /** Step E: above the desired salary, the figures move down until avg is the
      desired salary, min no lower than 0; the gap is recomputed or deleted. */
  function CapAtDesired(s: Stage, marketValue: real, desired: int): (r: Stage)
    ensures r.avg <= desired as real && r.avg <= s.avg
    ensures s.avg <= desired as real ==> r == s
    ensures r.max - r.avg == s.max - s.avg
    ensures s.avg > desired as real ==> r.min >= 0.0 && r.min >= s.min - (s.avg - r.avg)
    ensures GapTracksValue(s, marketValue) ==> GapTracksValue(r, marketValue)
  {
    if s.avg > desired as real then
      var adjustment := s.avg - desired as real;
      Stage(MaxReal(0.0, s.min - adjustment), desired as real, s.max - adjustment,
            if marketValue > desired as real then Some(marketValue - desired as real) else None)
    else s
  }

  /** x rounded to the nearest multiple of ten: Math.round(x / 10) * 10. */
  function RoundToTen(x: real): (r: int)
    ensures r % 10 == 0
    ensures x - 5.0 < r as real <= x + 5.0
  {
    var k := JsRound(x / 10.0);
    assert x / 10.0 - 0.5 < k as real <= x / 10.0 + 0.5;
    assert (k * 10) as real == k as real * 10.0;
    k * 10
  }

  lemma RoundToTenMonotone(x: real, y: real)
    requires x <= y
    ensures RoundToTen(x) <= RoundToTen(y)
  {
    JsRoundMonotone(x / 10.0, y / 10.0);
  }

  /** Step F: min and max are first widened to include avg, then all three are
      rounded to tens and min is floored at 0. The result is in tens, min is
      never negative, avg never exceeds max, and min never exceeds avg unless
      avg rounds below 0. */
  function Normalize(s: Stage): (r: Rounded)
    ensures r.min % 10 == 0 && r.avg % 10 == 0 && r.max % 10 == 0
    ensures r.min >= 0
    ensures r.avg <= r.max
    ensures r.avg >= 0 ==> r.min <= r.avg
  {
    var lo := RoundToTen(MinReal(s.min, s.avg));
    var hi := RoundToTen(MaxReal(s.max, s.avg));
    var mid := RoundToTen(s.avg);
    RoundToTenMonotone(MinReal(s.min, s.avg), s.avg);
    RoundToTenMonotone(s.avg, MaxReal(s.max, s.avg));
    Rounded(if lo < 0 then 0 else lo, mid, hi)
  }

  /** Figures already in tens, ordered and with min >= 0 are left as they are:
      normalising twice changes nothing. */
  lemma NormalizeIdempotent(r: Rounded, gap: Option<real>)
    requires r.min % 10 == 0 && r.avg % 10 == 0 && r.max % 10 == 0
    requires 0 <= r.min <= r.avg <= r.max
    ensures Normalize(Stage(r.min as real, r.avg as real, r.max as real, gap)) == r
  {
    RoundTensExact(r.min);
    RoundTensExact(r.avg);
    RoundTensExact(r.max);
  }

  lemma RoundTensExact(n: int)
    requires n % 10 == 0
    ensures RoundToTen(n as real) == n
  {
    var k := n / 10;
    assert n as real / 10.0 == k as real;
    JsRoundOfInt(k);
  }

  // ---------------------------------------------------------------------
  // The whole adjustment

  function BaselineStage(b: BaselineSalary): Stage
  {
    Stage(b.min as real, b.avg as real, b.max as real, None)
  }

  /** The competency call is made (a grade exists) and rethrows: a rate-limit
      or credential failure aborts the service. */
  predicate CompetencyRejected(req: Request)
    ensures CompetencyRejected(req) ==> req.scores != [] && req.competency.Failed?
  {
    ClassifyCompetency(req.scores).Some? && req.competency.Failed?
    && GeminiErrorType(req.competency.error) in {RateLimit, InvalidKey}
  }

  /** The premium is applied: a grade exists and the call answered. */
  predicate PremiumApplied(req: Request)
  {
    ClassifyCompetency(req.scores).Some? && req.competency.Answered?
  }

  /** The grade label the result holds when Step C looks it up. */
  function HeldGrade(req: Request): (grade: Option<string>)
    ensures grade.Some? ==> req.scores != [] && req.competency.Answered? && grade.value == req.competency.grade
    ensures req.scores == [] ==> grade.None?
  {
    if PremiumApplied(req) then Some(req.competency.grade) else None
  }

  function AfterPremium(req: Request): Stage
  {
    if PremiumApplied(req) then AddPremium(BaselineStage(req.baseline), req.competency.premium)
    else BaselineStage(req.baseline)
  }

  /** competencyAdjustedAvgSalary: the market value after the premium, never
      changed afterwards. */
  function MarketValue(req: Request): real
  {
    AfterPremium(req).avg
  }

  function Floor(req: Request): Option<int>
  {
    NegotiationFloor(req.previousSalary, CompanyMiddle(req.companyStandard))
  }

  predicate StepCRuns(req: Request)
    ensures StepCRuns(req) ==>
              Truthy(req.desiredSalary) && Truthy(Floor(req)) && req.desiredSalary.value > Floor(req).value
  {
    ConservativeApplies(req.desiredSalary, Floor(req))
  }

  predicate StepDRuns(req: Request)
    ensures StepDRuns(req) ==> !StepCRuns(req) && Truthy(CompanyMiddle(req.companyStandard))
    ensures StepDRuns(req) ==> MarketValue(req) > CompanyMiddle(req.companyStandard).value as real
  {
    var middle := CompanyMiddle(req.companyStandard);
    !StepCRuns(req) && Truthy(middle) && AfterPremium(req).avg > middle.value as real
  }

  function Offer(req: Request): int
    requires StepCRuns(req)
  {
    CalculatedOffer(Floor(req).value, req.desiredSalary.value, CompetencyWeight(HeldGrade(req)))
  }

  function Ceiling(req: Request): real
    requires StepDRuns(req)
  {
    CompanyCeiling(CompanyMiddle(req.companyStandard).value, CompanyHigh(req.companyStandard))
  }

  /** The figures after Steps C and D. */
  function AfterNegotiation(req: Request): Stage
  {
    if StepCRuns(req) then
      ConservativeOffer(AfterPremium(req), MarketValue(req), req.baseline.min, Offer(req))
    else if StepDRuns(req) then
      CapAtCeiling(AfterPremium(req), MarketValue(req), Ceiling(req))
    else AfterPremium(req)
  }

  /** The figures after Step E, before rounding. */
  function BeforeRounding(req: Request): (s: Stage)
    ensures Truthy(req.desiredSalary) ==> s.avg <= req.desiredSalary.value as real
    ensures s.avg <= AfterNegotiation(req).avg
    ensures s.max - s.avg == AfterNegotiation(req).max - AfterNegotiation(req).avg
  {
    if Truthy(req.desiredSalary) then
      CapAtDesired(AfterNegotiation(req), MarketValue(req), req.desiredSalary.value)
    else AfterNegotiation(req)
  }

  /** fetchSalaryGuidance from the baseline on. */
  function Adjust(req: Request): (outcome: Outcome)
    ensures outcome.Rejected? <==> CompetencyRejected(req)
    ensures outcome.Completed? ==>
              var r := outcome.recommendation;
              && r.minSalary % 10 == 0 && r.avgSalary % 10 == 0 && r.maxSalary % 10 == 0
              && 0 <= r.minSalary && r.avgSalary <= r.maxSalary
              && (r.avgSalary >= 0 ==> r.minSalary <= r.avgSalary)
              && r.baseline == req.baseline && r.competencyGrade == HeldGrade(req)
  {
    if CompetencyRejected(req) then Rejected(GeminiErrorType(req.competency.error))
    else
      var s := BeforeRounding(req);
      var r := Normalize(s);
      Completed(Recommendation(
        r.min, r.avg, r.max, s.gap, req.baseline,
        if PremiumApplied(req) then Some(req.competency.premium) else None,
        HeldGrade(req),
        if Truthy(req.desiredSalary) then req.desiredSalary else None,
        if Truthy(req.previousSalary) then req.previousSalary else None))
  }

  // ---------------------------------------------------------------------
  // What the adjustment guarantees

  /** The premium and Steps C, D and E move max by exactly as much as avg, so
      the spread max - avg of the baseline survives until rounding. */
  lemma SpreadPreserved(req: Request)
    ensures AfterPremium(req).max - AfterPremium(req).avg == (req.baseline.max - req.baseline.avg) as real
    ensures AfterNegotiation(req).max - AfterNegotiation(req).avg == (req.baseline.max - req.baseline.avg) as real
    ensures BeforeRounding(req).max - BeforeRounding(req).avg == (req.baseline.max - req.baseline.avg) as real
  {
  }

  /** Step C: the offer lies in [floor, desired], and avg becomes the smaller
      of the offer and the market value, so Step C never raises avg. */
  lemma StepCBounds(req: Request)
    requires StepCRuns(req)
    ensures Floor(req).value <= Offer(req) <= req.desiredSalary.value
    ensures AfterNegotiation(req).avg == MinReal(Offer(req) as real, MarketValue(req))
    ensures AfterNegotiation(req).avg <= MarketValue(req)
  {
    CalculatedOfferWithin(Floor(req).value, req.desiredSalary.value, HeldGrade(req));
  }

  /** Step D runs only when Step C does not; it lowers avg to exactly the
      ceiling when avg exceeds it, and never raises it. */
  lemma StepDCeiling(req: Request)
    requires StepDRuns(req)
    ensures !StepCRuns(req)
    ensures AfterPremium(req).avg > Ceiling(req) ==> AfterNegotiation(req).avg == Ceiling(req)
    ensures AfterPremium(req).avg <= Ceiling(req) ==> AfterNegotiation(req) == AfterPremium(req)
  {
  }

  /** Step E: whenever the desired salary is truthy the recommendation before
      rounding is at most the desired salary. */
  lemma DesiredSalaryCaps(req: Request)
    requires Truthy(req.desiredSalary)
    ensures BeforeRounding(req).avg <= req.desiredSalary.value as real
  {
  }

  /** The gap tracks the distance of avg below the market value: avg never
      exceeds the market value, and the gap is present exactly when avg is
      below it, holding the difference. */
  predicate GapTracksValue(s: Stage, marketValue: real)
  {
    s.avg <= marketValue
    && s.gap == if marketValue > s.avg then Some(marketValue - s.avg) else None
  }

  /** Every step keeps the gap tracking the value, so at the end a present gap
      is strictly positive and equals the market value minus the unrounded
      recommendation. */
  lemma {:induction false} GapInvariant(req: Request)
    ensures GapTracksValue(AfterPremium(req), MarketValue(req))
    ensures GapTracksValue(AfterNegotiation(req), MarketValue(req))
    ensures GapTracksValue(BeforeRounding(req), MarketValue(req))
    ensures BeforeRounding(req).gap.Some? ==> BeforeRounding(req).gap.value > 0.0
  {
    var mv := MarketValue(req);
    var s1 := AfterPremium(req);
    if StepCRuns(req) {
      StepCBounds(req);
    } else if StepDRuns(req) {
      assert GapTracksValue(CapAtCeiling(s1, mv, Ceiling(req)), mv);
    }
    var s2 := AfterNegotiation(req);
    if Truthy(req.desiredSalary) {
      assert GapTracksValue(CapAtDesired(s2, mv, req.desiredSalary.value), mv);
    }
  }

  /** Without rubric scores there is no grade, the competency call is not made
      and the baseline passes to the negotiation steps unchanged. */
  lemma NoScoresNoPremium(req: Request)
    requires req.scores == []
    ensures !PremiumApplied(req) && !CompetencyRejected(req)
    ensures AfterPremium(req) == BaselineStage(req.baseline)
    ensures HeldGrade(req) == None
  {
  }

  /** The final figures are in tens, min is at least 0, avg at most max, and
      min at most avg unless avg rounds below 0; a present gap is positive. */
  lemma RecommendationShape(req: Request)
    requires Adjust(req).Completed?
    ensures var r := Adjust(req).recommendation;
      r.minSalary % 10 == 0 && r.avgSalary % 10 == 0 && r.maxSalary % 10 == 0
      && 0 <= r.minSalary && r.avgSalary <= r.maxSalary
      && (r.avgSalary >= 0 ==> r.minSalary <= r.avgSalary)
      && (r.potentialValueGap.Some? ==> r.potentialValueGap.value > 0.0)
  {
    GapInvariant(req);
  }

  /** Before rounding, min can exceed avg: Step C keeps min at the baseline min
      even when the offer falls below it (here min 4000 above avg 3300). Only
      the widening in Step F restores the order. */
  lemma StepCCanLiftMinAboveAvg()
    ensures var s := ConservativeOffer(Stage(4000.0, 4500.0, 5000.0, None), 4500.0, 4000, 3300);
      s.min == 4000.0 && s.avg == 3300.0 && s.min > s.avg
  {
  }

  // ---------------------------------------------------------------------
  // Worked cases

  /** Baseline 4000/4500/5000 with no premium and no negotiation inputs. */
  lemma BaselineOnlyCase()
    ensures Adjust(Request(BaselineSalary(4000, 4500, 5000), [], Answered(0, ""), None, None, None))
            == Completed(Recommendation(4000, 4500, 5000, None, BaselineSalary(4000, 4500, 5000),
                                        None, None, None, None))
  {
    RoundTensExact(4000);
    RoundTensExact(4500);
    RoundTensExact(5000);
  }

  /** Market value 6000 (premium 500), previous salary 4000, company middle
      4500, desired 7000, a baseline grade (weight 1/4): the floor is 4500,
      the offer round(4500 + 2500 / 4) = 5125, the gap 875. */
  lemma BaselineGradeCase()
    ensures var req := Request(BaselineSalary(5000, 5500, 6000), [2, 2, 2], Answered(500, Grade.Baseline.Label()),
                               Some(Tier(Evaluation(None, Some(4500), None))), Some(4000), Some(7000));
      && MarketValue(req) == 6000.0
      && Floor(req) == Some(4500)
      && StepCRuns(req)
      && Offer(req) == 5125
      && BeforeRounding(req) == Stage(5000.0, 5125.0, 5625.0, Some(875.0))
  {
    var req := Request(BaselineSalary(5000, 5500, 6000), [2, 2, 2], Answered(500, Grade.Baseline.Label()),
                       Some(Tier(Evaluation(None, Some(4500), None))), Some(4000), Some(7000));
    var twos: seq<int> := [2, 2];
    assert req.scores[..2] == twos && twos[..1] == [2] && [2][..0] == [];
    assert Sum(req.scores) == 6;
    assert Mean(req.scores) == 2.0;
    assert HeldGrade(req) == Some(Grade.Baseline.Label());
    assert CompetencyWeight(HeldGrade(req)) == 0.25;
  }

  /** Step E on the figures of the case above with a desired salary of 5000:
      everything moves down by 125 and the gap grows to 1000. */
  lemma DesiredCapCase()
    ensures CapAtDesired(Stage(5000.0, 5125.0, 5625.0, Some(875.0)), 6000.0, 5000)
            == Stage(4875.0, 5000.0, 5500.0, Some(1000.0))
  {
  }

  // ---------------------------------------------------------------------
  // Monotonicity in the premium, and where it ends

  /** The ceiling Step D would use is at least the company middle that
      triggers it: a company high, when truthy, is not below the middle, and a
      middle used alone is not negative. */
  predicate CeilingAboveMiddle(standard: Option<CompanyStandard>)
  {
    var middle := CompanyMiddle(standard);
    Truthy(middle) ==> CompanyCeiling(middle.value, CompanyHigh(standard)) >= middle.value as real
  }

  /** With such a ceiling, a larger premium never lowers the recommendation,
      before rounding and after it. */
  lemma PremiumMonotone(req: Request, p1: int, p2: int, grade: string)
    requires ClassifyCompetency(req.scores).Some?
    requires p1 <= p2
    requires CeilingAboveMiddle(req.companyStandard)
    ensures BeforeRounding(req.(competency := Answered(p1, grade))).avg
            <= BeforeRounding(req.(competency := Answered(p2, grade))).avg
    ensures Adjust(req.(competency := Answered(p1, grade))).recommendation.avgSalary
            <= Adjust(req.(competency := Answered(p2, grade))).recommendation.avgSalary
  {
    var r1 := req.(competency := Answered(p1, grade));
    var r2 := req.(competency := Answered(p2, grade));
    assert BeforeRounding(r1).avg <= BeforeRounding(r2).avg;
    RoundToTenMonotone(BeforeRounding(r1).avg, BeforeRounding(r2).avg);
  }

  /** Without it the order breaks: when the company high is below its middle,
      a premium of 200 instead of 100 lifts the market value over the middle,
      Step D then caps at the high, and the recommendation drops from 4000 to
      3000. */
  lemma PremiumMonotoneFailsBelowMiddle()
    ensures var req := Request(BaselineSalary(3000, 3900, 4500), [3], Answered(100, Strong.Label()),
                               Some(Tier(Evaluation(Some(2000), Some(4000), Some(3000)))), None, None);
      && BeforeRounding(req).avg == 4000.0
      && BeforeRounding(req.(competency := Answered(200, Strong.Label()))).avg == 3000.0
  {
    var req := Request(BaselineSalary(3000, 3900, 4500), [3], Answered(100, Strong.Label()),
                       Some(Tier(Evaluation(Some(2000), Some(4000), Some(3000)))), None, None);
    assert req.scores[..0] == [];
    assert Sum(req.scores) == 3;
    assert !StepCRuns(req);
  }

  /** Step E does not make the desired salary a fixed point: a recommendation
      of 5000 reached without a desired salary becomes 4600 when 5000 is then
      given as the desired salary, because a desired salary above the floor
      starts the interpolation of Step C (no grade: weight 3/5). */
  lemma DesiredSalaryNotFixedPoint()
    ensures var req := Request(BaselineSalary(4000, 5000, 6000), [], Failed(OtherValue), None, Some(4000), None);
      && BeforeRounding(req).avg == 5000.0
      && BeforeRounding(req.(desiredSalary := Some(5000))).avg == 4600.0
  {
    var req := Request(BaselineSalary(4000, 5000, 6000), [], Failed(OtherValue), None, Some(4000), None);
    var req' := req.(desiredSalary := Some(5000));
    assert StepCRuns(req');
    assert CompetencyWeight(HeldGrade(req')) == 0.6;
    JsRoundOfInt(4600);
    assert Offer(req') == 4600;
  }

  // ---------------------------------------------------------------------
  // The result object, updated in place step by step

  /** finalData: the salary result the service builds and then adjusts field
      by field. */
  class FinalData {
    var minSalary: real
    var avgSalary: real
    var maxSalary: real
    var potentialValueGap: Option<real>
    var competencyPremium: Option<int>
    var competencyGrade: Option<string>
    const baseline: BaselineSalary

    /** The salary figures as a value. */
    function Figures(): Stage
      reads this
    {
      Stage(minSalary, avgSalary, maxSalary, potentialValueGap)
    }

    /** The result object starts as the baseline, with no premium or gap. */
    constructor (b: BaselineSalary)
      ensures Figures() == BaselineStage(b) && baseline == b
      ensures competencyPremium == None && competencyGrade == None
    {
      minSalary, avgSalary, maxSalary := b.min as real, b.avg as real, b.max as real;
      potentialValueGap := None;
      competencyPremium, competencyGrade := None, None;
      baseline := b;
    }

    /** Records the premium and grade and adds the premium to all three figures. */
    method ApplyPremium(premium: int, grade: string)
      modifies this
      ensures Figures() == AddPremium(old(Figures()), premium)
      ensures competencyPremium == Some(premium) && competencyGrade == Some(grade)
    {
      competencyPremium := Some(premium);
      competencyGrade := Some(grade);
      minSalary := minSalary + premium as real;
      avgSalary := avgSalary + premium as real;
      maxSalary := maxSalary + premium as real;
    }

    /** Step C on the object. */
    method ApplyConservativeOffer(marketValue: real, offer: int)
      modifies this
      ensures Figures() == ConservativeOffer(old(Figures()), marketValue, baseline.min, offer)
      ensures competencyPremium == old(competencyPremium) && competencyGrade == old(competencyGrade)
    {
      var finalOffer := MinReal(offer as real, marketValue);
      if marketValue > finalOffer {
        potentialValueGap := Some(marketValue - finalOffer);
      } else {
        potentialValueGap := None;
      }
      var adjustment := avgSalary - finalOffer;
      avgSalary := finalOffer;
      minSalary := MaxReal(baseline.min as real, minSalary - adjustment);
      maxSalary := maxSalary - adjustment;
    }

    /** Step D on the object. */
    method ApplyCompanyCeiling(marketValue: real, ceiling: real)
      modifies this
      ensures Figures() == CapAtCeiling(old(Figures()), marketValue, ceiling)
      ensures competencyPremium == old(competencyPremium) && competencyGrade == old(competencyGrade)
    {
      if avgSalary > ceiling {
        var adjustment := avgSalary - ceiling;
        avgSalary := ceiling;
        minSalary := minSalary - adjustment;
        maxSalary := maxSalary - adjustment;
        if marketValue > avgSalary {
          potentialValueGap := Some(marketValue - avgSalary);
        }
      }
    }

    /** Step E on the object. */
    method ApplyDesiredCap(marketValue: real, desired: int)
      modifies this
      ensures Figures() == CapAtDesired(old(Figures()), marketValue, desired)
      ensures competencyPremium == old(competencyPremium) && competencyGrade == old(competencyGrade)
    {
      if avgSalary > desired as real {
        var adjustment := avgSalary - desired as real;
        avgSalary := desired as real;
        minSalary := MaxReal(0.0, minSalary - adjustment);
        maxSalary := maxSalary - adjustment;
        if marketValue > avgSalary {
          potentialValueGap := Some(marketValue - avgSalary);
        } else {
          potentialValueGap := None;
        }
      }
    }

    /** Step F on the object: returns the rounded figures it stores. */
    method NormalizeFigures() returns (r: Rounded)
      modifies this
      ensures r == Normalize(old(Figures()))
      ensures Figures() == Stage(r.min as real, r.avg as real, r.max as real, old(potentialValueGap))
      ensures competencyPremium == old(competencyPremium) && competencyGrade == old(competencyGrade)
    {
      var lo := RoundToTen(MinReal(minSalary, avgSalary));
      var hi := RoundToTen(MaxReal(maxSalary, avgSalary));
      var mid := RoundToTen(avgSalary);
      if lo < 0 {
        lo := 0;
      }
      minSalary, avgSalary, maxSalary := lo as real, mid as real, hi as real;
      r := Rounded(lo, mid, hi);
    }
  }

  /** fetchSalaryGuidance from the baseline on, run on a result object the way
      the service runs it; it computes exactly the adjustment Adjust
      specifies. */
  method FetchSalaryAdjustment(req: Request) returns (outcome: Outcome)
    ensures outcome == Adjust(req)
  {
    var finalData := new FinalData(req.baseline);
    if ClassifyCompetency(req.scores).Some? {
      match req.competency
      case Answered(premium, grade) =>
        finalData.ApplyPremium(premium, grade);
      case Failed(error) =>
        var kind := GeminiErrorType(error);
        if kind == RateLimit || kind == InvalidKey {
          return Rejected(kind);
        }
    }
    assert finalData.Figures() == AfterPremium(req);
    var marketValue := finalData.avgSalary;
    var middle := CompanyMiddle(req.companyStandard);
    var floor := NegotiationFloor(req.previousSalary, middle);
    if ConservativeApplies(req.desiredSalary, floor) {
      var weight := CompetencyWeight(finalData.competencyGrade);
      var offer := CalculatedOffer(floor.value, req.desiredSalary.value, weight);
      finalData.ApplyConservativeOffer(marketValue, offer);
    } else if Truthy(middle) && finalData.avgSalary > middle.value as real {
      var ceiling := CompanyCeiling(middle.value, CompanyHigh(req.companyStandard));
      finalData.ApplyCompanyCeiling(marketValue, ceiling);
    }
    assert finalData.Figures() == AfterNegotiation(req);
    if Truthy(req.desiredSalary) {
      finalData.ApplyDesiredCap(marketValue, req.desiredSalary.value);
    }
    assert finalData.Figures() == BeforeRounding(req);
    var gap := finalData.potentialValueGap;
    var r := finalData.NormalizeFigures();
    outcome := Completed(Recommendation(
      r.min, r.avg, r.max, gap, finalData.baseline,
      finalData.competencyPremium, finalData.competencyGrade,
      if Truthy(req.desiredSalary) then req.desiredSalary else None,
      if Truthy(req.previousSalary) then req.previousSalary else None));
  }
}
