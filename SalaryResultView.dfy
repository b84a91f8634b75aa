/** The breakdown the result screen recomputes from the returned data to
    explain the recommendation: market value, negotiation floor, competency
    weight, strategic offer and the offer before the desired-salary cap. The
    calculation modal and the analysis view carry the same lines, so one
    function models both. */
module SalaryResultView {
  import opened Common
  import opened Types
  import opened GeminiService
  import opened SalaryAdjustment

  /** The fields of SalaryResultData the breakdown reads. */
  datatype ResultData = ResultData(
    baselineAvgSalary: Option<int>,
    competencyPremium: Option<int>,
    competencyGrade: Option<string>,
    previousSalary: Option<int>,
    desiredSalary: Option<int>,
    companyStandard: Option<CompanyStandard>)

  /** What the breakdown shows. */
  datatype Breakdown = Breakdown(
    actualMarketValue: int,
    negotiationFloor: Option<int>,
    competencyWeight: real,
    competencyWeightReason: string,
    strategicOffer: Option<int>,
    finalOfferBeforeCap: int)

  /** The screen's own weight table, with the sentence explaining it. */
  function CompetencyWeightWithReason(grade: Option<string>): (r: (real, string))
    ensures r.0 == CompetencyWeight(grade)
  {
    if grade == Some(KeyTalent.Label()) then (0.8, "최고 수준의 역량을 고려하여 희망 연봉에 가깝게 책정")
    else if grade == Some(Strong.Label()) then (0.6, "우수한 역량을 고려하여 합리적인 수준으로 책정")
    else if grade == Some(Grade.Baseline.Label()) then (0.25, "기본 역량 보유로 판단, 보수적인 수준으로 책정")
    else if grade == Some(NeedsReview.Label()) then (0.1, "역량 보완이 필요하므로, 시작점에 가깝게 책정")
    else (0.6, "역량 등급 미입력으로, '우수' 등급 기준으로 책정")
  }

  /** The screen's negotiation floor: the larger of previous salary and company
      middle when both are truthy, otherwise `previousSalary || companyMiddle`
      (a null middle and an absent one both read as None). */
  function ViewFloor(previous: Option<int>, standard: Option<CompanyStandard>): (floor: Option<int>)
    ensures floor == previous || floor == CompanyMiddle(standard)
    ensures Truthy(previous) ==> Truthy(floor) && floor.value >= previous.value
    ensures Truthy(CompanyMiddle(standard)) ==> Truthy(floor) && floor.value >= CompanyMiddle(standard).value
  {
    var middle := if standard.Some? && standard.value.Tier? then standard.value.evaluation.middle else None;
    if Truthy(previous) && Truthy(middle) then
      Some(if previous.value >= middle.value then previous.value else middle.value)
    else if Truthy(previous) then previous
    else middle
  }

  /** The screen and the service derive the same floor from the same inputs. */
  lemma ViewFloorMatchesService(previous: Option<int>, standard: Option<CompanyStandard>)
    ensures ViewFloor(previous, standard) == NegotiationFloor(previous, CompanyMiddle(standard))
  {
  }

  /** The breakdown of one result. */
  function ComputeBreakdown(d: ResultData): (b: Breakdown)
    ensures b.negotiationFloor == NegotiationFloor(d.previousSalary, CompanyMiddle(d.companyStandard))
    ensures b.competencyWeight == CompetencyWeight(d.competencyGrade)
    ensures b.finalOfferBeforeCap <= b.actualMarketValue
  {
    ViewFloorMatchesService(d.previousSalary, d.companyStandard);
    var actual := (if d.baselineAvgSalary.Some? then d.baselineAvgSalary.value else 0)
                  + (if d.competencyPremium.Some? then d.competencyPremium.value else 0);
    var floor := ViewFloor(d.previousSalary, d.companyStandard);
    var ceiling := d.desiredSalary;
    var (weight, reason) := CompetencyWeightWithReason(d.competencyGrade);
    var offer := if Truthy(floor) && Truthy(ceiling) && ceiling.value > floor.value
                 then Some(JsRound(floor.value as real + (ceiling.value - floor.value) as real * weight))
                 else None;
    var beforeCap := if Truthy(offer) then (if offer.value <= actual then offer.value else actual) else actual;
    Breakdown(actual, floor, weight, reason, offer, beforeCap)
  }

  /** A strategic offer exists exactly when floor and desired salary are truthy
      and the desired salary is above the floor, and it then lies between them. */
  lemma StrategicOfferBounds(d: ResultData)
    ensures var b := ComputeBreakdown(d);
      && (b.strategicOffer.Some? <==>
            Truthy(b.negotiationFloor) && Truthy(d.desiredSalary)
            && d.desiredSalary.value > b.negotiationFloor.value)
      && (b.strategicOffer.Some? ==>
            b.negotiationFloor.value <= b.strategicOffer.value <= d.desiredSalary.value)
  {
    var b := ComputeBreakdown(d);
    if b.strategicOffer.Some? {
      CalculatedOfferWithin(b.negotiationFloor.value, d.desiredSalary.value, d.competencyGrade);
    }
  }

  /** The offer before the cap never exceeds the market value, and is the
      market value itself when no strategic offer applies. */
  lemma BeforeCapAtMostMarketValue(d: ResultData)
    ensures var b := ComputeBreakdown(d);
      && b.finalOfferBeforeCap <= b.actualMarketValue
      && (!Truthy(b.strategicOffer) ==> b.finalOfferBeforeCap == b.actualMarketValue)
      && (Truthy(b.strategicOffer) ==>
            b.finalOfferBeforeCap == if b.strategicOffer.value <= b.actualMarketValue
                                     then b.strategicOffer.value else b.actualMarketValue)
  {
  }

  /** The data the screen receives: the service's result, with the company
      standard attached only when it is tabular. */
  function Received(r: Recommendation, standard: Option<CompanyStandard>): (d: ResultData)
    ensures d.baselineAvgSalary == Some(r.baseline.avg)
    ensures d.companyStandard.Some? ==> d.companyStandard.value.Tier?
    ensures CompanyMiddle(d.companyStandard) == CompanyMiddle(standard)
  {
    ResultData(Some(r.baseline.avg), r.competencyPremium, r.competencyGrade,
               r.previousSalary, r.desiredSalary,
               if standard.Some? && standard.value.Tier? then standard else None)
  }

  /** The data carries what the service derived from the request: the
      baseline average, the premium and grade it applied, the truthy previous
      and desired salaries, and the same company middle. */
  predicate ReceivedFrom(d: ResultData, req: Request)
  {
    && d.baselineAvgSalary == Some(req.baseline.avg)
    && d.competencyPremium == (if PremiumApplied(req) then Some(req.competency.premium) else None)
    && d.competencyGrade == HeldGrade(req)
    && (Truthy(d.previousSalary) <==> Truthy(req.previousSalary))
    && (Truthy(req.previousSalary) ==> d.previousSalary == req.previousSalary)
    && d.desiredSalary == (if Truthy(req.desiredSalary) then req.desiredSalary else None)
    && CompanyMiddle(d.companyStandard) == CompanyMiddle(req.companyStandard)
  }

  /** The screen receives exactly that from a completed adjustment. */
  lemma ServiceResultReceived(req: Request)
    requires Adjust(req).Completed?
    ensures ReceivedFrom(Received(Adjust(req).recommendation, req.companyStandard), req)
  {
  }

  /** The breakdown's market value is the service's market value. */
  lemma MarketValueAgrees(req: Request, d: ResultData)
    requires ReceivedFrom(d, req)
    ensures ComputeBreakdown(d).actualMarketValue as real == MarketValue(req)
  {
  }

  /** The breakdown's floor is the service's floor. */
  lemma FloorAgrees(req: Request, d: ResultData)
    requires ReceivedFrom(d, req)
    ensures ComputeBreakdown(d).negotiationFloor == Floor(req)
  {
    ViewFloorMatchesService(d.previousSalary, d.companyStandard);
  }

  /** The breakdown's weight is the one Step C used. */
  lemma WeightAgrees(req: Request, d: ResultData)
    requires ReceivedFrom(d, req)
    ensures ComputeBreakdown(d).competencyWeight == CompetencyWeight(HeldGrade(req))
  {
  }

  /** The screen's strategic offer is the service's calculatedOffer of its
      floor, the desired salary and its weight. */
  lemma StrategicOfferIsCalculated(d: ResultData)
    ensures var b := ComputeBreakdown(d);
      Truthy(b.negotiationFloor) && Truthy(d.desiredSalary) && d.desiredSalary.value > b.negotiationFloor.value ==>
        b.strategicOffer == Some(CalculatedOffer(b.negotiationFloor.value, d.desiredSalary.value, b.competencyWeight))
  {
  }

  /** Whenever Step C ran, the breakdown's strategic offer is Step C's offer,
      and with a positive floor its offer before the cap is the average Step C
      set. */
  lemma OfferAgrees(req: Request, d: ResultData)
    requires ReceivedFrom(d, req) && StepCRuns(req)
    ensures ComputeBreakdown(d).strategicOffer == Some(Offer(req))
    ensures Floor(req).value > 0 ==> ComputeBreakdown(d).finalOfferBeforeCap as real == AfterNegotiation(req).avg
  {
    FloorAgrees(req, d);
    WeightAgrees(req, d);
    var b := ComputeBreakdown(d);
    assert d.desiredSalary == req.desiredSalary;
    StrategicOfferIsCalculated(d);
    if Floor(req).value > 0 {
      MarketValueAgrees(req, d);
      StepCBounds(req);
    }
  }
}
