# Salary estimation: a verified model of the deterministic core

The application estimates a salary for a candidate in a technical role and
turns it into a hiring proposal. A language model supplies the market
baseline, a competency premium and the report texts. Everything around those
answers is plain arithmetic and table logic, and that is what this project
models and proves things about:

- **The adjustment pipeline of the salary service** (`SalaryAdjustment`). It
  adds the competency premium. It derives a negotiation floor from the
  previous salary and the company's middle salary. It interpolates a
  conservative offer between floor and desired salary, weighted by the
  competency grade and capped at market value. When that step does not apply,
  it falls back to a company ceiling. It then caps at the desired salary and
  rounds to tens. The result object the service mutates field by field is the
  class `FinalData`. The whole run is the specification function `Adjust`.
- **The service's pure helpers** (`GeminiService`): the error classifier, the
  stripping of code fences from JSON answers, the grade of the rubric scores
  and the grade-to-weight table.
- **The engineer-level calculator** (`Logic`) and its agreement with the grade
  bands of the company salary table.
- **The company salary table** (`CompanySalaryTable`): the job structure of
  each education, the row and row-span arithmetic of the rendered table, the
  year-over-year increase column, the per-position averages and the
  currency and input cell texts.
- **The application shell** (`App`). It builds the initial 4 × 20 table and
  edits a cell, where a new high value drags low and middle along. It
  computes the company standard handed to the service in automatic and in
  manual career mode. It also shows a competency summary while scores are
  entered.
- **The result screen's recomputation** (`SalaryResultView`): the breakdown
  shown next to the recommendation, proved to agree with what the service
  computed. The calculation modal and the analysis view contain the same
  lines, so one function models both.
- **The hiring proposal's salary cells** (`HiringProposal`): formatting, and
  the normalisation on blur and focus.
- **The loading spinner's emoji lookup** (`LoadingSpinner`).

JavaScript semantics are modelled where they matter:

- `Common` covers truthiness, where 0, `null` and `undefined` are absent, and
  `Math.round`, which rounds halves up (section 21.3.2.28 of ECMA-262).
- `JsText` covers `parseInt` (section 19.2.5 of ECMA-262), `String(n)`,
  `toLocaleString` with comma grouping, `includes`, `toLowerCase`, `trim` and
  `replace`.

Salaries are exact rationals. The weights 4/5, 3/5, 1/4 and 1/10 and the
factor 1.15 are exact.

The language model is not modelled. Its answers are inputs of `Request`: the
baseline triple, and the competency call's premium and grade, or the value it
threw.

Two properties one might expect of the adjustment do not hold for the code,
and the model follows the code:

- The desired salary is not a fixed point. Giving the recommendation back as
  the desired salary can change it, because a desired salary above the floor
  starts the interpolation of Step C (`DesiredSalaryNotFixedPoint`: 5000
  becomes 4600).
- The recommendation is not monotone in the premium. When the company high is
  below the company middle, a larger premium can push the market value over
  the middle, and Step D then caps at the lower high
  (`PremiumMonotoneFailsBelowMiddle`: 4000 becomes 3000). With a ceiling not
  below the middle, a larger premium never lowers the recommendation
  (`PremiumMonotone`).

## Model

| member | source | states |
|---|---|---|
| Common.JsRound | services/geminiService.ts:311 | Math.round gives the integer r with r - 1/2 <= x < r + 1/2, so halves round up |
| Common.JsRoundBetween | services/geminiService.ts:311 | rounding a value between two integers stays between them |
| Common.JsRoundMonotone | services/geminiService.ts:311 | rounding preserves order |
| Logic.CalculateEngineerLevel | logic.ts:8-41 | no education gives beginner; otherwise the level's rank is the number of steps of the reference staircase (entry year, entry + 3, entry + 6) that the years reach |
| Logic.Thresholds | logic.ts:8-41 | each education's level is the number of thresholds reached from its entry year, 13 - 3 × rank: master 4/7/10, bachelor 7/10/13, associate 10/13/16, high school 13/16/19 |
| Logic.NoEducationIsBeginner | logic.ts:12 | without an education the level is beginner |
| Logic.MonotoneInYears | logic.ts:14-37 | more years never give a lower level |
| Logic.MonotoneInEducation | logic.ts:14-37 | for equal years a higher education never gives a lower level |
| Logic.UnderFourYearsIsBeginner | logic.ts:16-37 | under four years every education gives beginner |
| GeminiService.ContainsAny | services/geminiService.ts:9-20 | true exactly when some key of the list occurs in the text |
| GeminiService.GeminiErrorType | services/geminiService.ts:6-23 | a non-Error is UNKNOWN; RATE_LIMIT only when a rate-limit key occurs in the lower-cased message, INVALID_KEY only when none does and a credential key does, SERVER_ERROR only when neither does and a server key does, UNKNOWN only when no key occurs |
| GeminiService.ErrorTypeIgnoresCase | services/geminiService.ts:8 | the classification is the same for a message and its lower-cased form |
| GeminiService.RateLimitDominates | services/geminiService.ts:9-11 | a message classified RATE_LIMIT stays so whatever text surrounds it |
| GeminiService.ResourceExhaustedIsRateLimit | services/geminiService.ts:9-11 | the upper-case status RESOURCE_EXHAUSTED is a rate limit |
| GeminiService.ContainsAnyConcat | services/geminiService.ts:9-22 | searching a concatenated key list is searching either list |
| GeminiService.FenceRoundTrip | services/geminiService.ts:167 | the two replace calls recover any body wrapped in a json code fence |
| GeminiService.CleanFencedAnswer | services/geminiService.ts:166-167 | trim followed by fence stripping cleans a fenced answer to its body |
| GeminiService.StripJsonFence | services/geminiService.ts:167 | the result is never longer; without a leading "```json" only a suffix is cut, and without a closing fence only a prefix |
| GeminiService.CleanJsonText | services/geminiService.ts:166-167 | an answer without fences is only trimmed; without an opening fence the text handed to JSON.parse does not start with white space |
| GeminiService.UnfencedUntouched | services/geminiService.ts:167 | an answer with neither fence passes unchanged |
| GeminiService.Mean | services/geminiService.ts:201 | the mean times the number of scores is their sum |
| GeminiService.GradeOfMean | services/geminiService.ts:202-210 | each grade is given exactly on its interval: below 2.0, [2.0, 2.7], (2.7, 3.5], above 3.5 |
| GeminiService.ClassifyCompetency | services/geminiService.ts:197-211 | no grade exactly when there are no scores; with n scores summing to S, needs review exactly when S < 2.0n, baseline exactly when 2.0n <= S <= 2.7n, strong exactly when 2.7n < S <= 3.5n, key talent exactly when S > 3.5n |
| GeminiService.GradeMonotone | services/geminiService.ts:202-210 | a higher mean never gives a lower grade |
| GeminiService.CompetencyWeight | services/geminiService.ts:294-308 | every weight lies strictly between 0 and 1 |
| GeminiService.WeightFollowsGrade | services/geminiService.ts:294-308 | a higher grade always weighs the desired salary more |
| GeminiService.WeightTable | services/geminiService.ts:294-308 | the weights are 4/5, 3/5, 1/4 and 1/10, and 3/5 for any other text or no grade |
| SalaryAdjustment.NegotiationFloor | services/geminiService.ts:283-290 | the floor is truthy exactly when one input is; the larger when both are, otherwise the truthy one |
| SalaryAdjustment.CompanyMiddle | services/geminiService.ts:284 | a missing or sentence standard gives no middle; a middle comes only from a tabular standard, as its middle |
| SalaryAdjustment.CompanyHigh | services/geminiService.ts:333 | a missing or sentence standard gives no high; a high comes only from a tabular standard, as its high |
| SalaryAdjustment.CompetencyRejected | services/geminiService.ts:262-270 | the service aborts only when there were scores and the competency call failed (with a rate-limit or bad-key error) |
| SalaryAdjustment.HeldGrade | services/geminiService.ts:256 | a grade is held only when there were scores and the call answered, and it is the answered grade; no scores means no grade |
| SalaryAdjustment.StepCRuns | services/geminiService.ts:293 | Step C runs only with a truthy desired salary above a truthy negotiation floor |
| SalaryAdjustment.StepDRuns | services/geminiService.ts:330 | Step D runs only when Step C did not, with a truthy company middle below the market value |
| SalaryAdjustment.CalculatedOffer | services/geminiService.ts:311 | for a weight in [0, 1] and floor <= desired the offer lies in [floor, desired]; weight 0 gives the floor |
| SalaryAdjustment.CalculatedOfferWithin | services/geminiService.ts:293-311 | when floor < desired the interpolated offer lies in [floor, desired] for every grade |
| SalaryAdjustment.CompanyCeiling | services/geminiService.ts:333-334 | the company high when truthy, otherwise the middle plus 15% of it |
| SalaryAdjustment.AddPremium | services/geminiService.ts:259-261 | avg rises by the premium; both spreads around avg and the gap are kept |
| SalaryAdjustment.ConservativeOffer | services/geminiService.ts:315-328 | avg becomes the offer or the market value, whichever is lower; max keeps its distance to avg; min stays at or above the baseline min and drops no further than avg; the gap tracks the distance below the market value |
| SalaryAdjustment.CapAtCeiling | services/geminiService.ts:335-343 | figures at or under the ceiling are left alone; otherwise avg becomes the ceiling; both spreads are kept and gap tracking is preserved |
| SalaryAdjustment.CapAtDesired | services/geminiService.ts:348-363 | avg ends at most the desired salary and is never raised; figures at or under it are left alone; max keeps its spread; a lowered min is at least 0; gap tracking is preserved |
| SalaryAdjustment.RoundToTen | services/geminiService.ts:367-369 | round(x / 10) × 10 is a multiple of 10 within 5 of x |
| SalaryAdjustment.RoundToTenMonotone | services/geminiService.ts:367-369 | rounding to tens preserves order |
| SalaryAdjustment.Normalize | services/geminiService.ts:366-370 | the final figures are multiples of 10, min >= 0, avg <= max, and min <= avg whenever avg >= 0 |
| SalaryAdjustment.NormalizeIdempotent | services/geminiService.ts:366-370 | normalising figures already ordered, non-negative and in tens changes nothing |
| SalaryAdjustment.RoundTensExact | services/geminiService.ts:367-369 | a multiple of 10 rounds to itself |
| SalaryAdjustment.SpreadPreserved | services/geminiService.ts:259-261 | the premium and Steps C, D and E move max by as much as avg, so max - avg keeps its baseline value until rounding |
| SalaryAdjustment.StepCBounds | services/geminiService.ts:293-326 | when Step C runs its offer lies between floor and desired salary, and avg becomes min(offer, market value), never above the market value |
| SalaryAdjustment.StepDCeiling | services/geminiService.ts:330-342 | Step D runs only when Step C does not; avg above the ceiling becomes exactly the ceiling, otherwise nothing changes |
| SalaryAdjustment.DesiredSalaryCaps | services/geminiService.ts:345-362 | with a truthy desired salary, avg is at most the desired salary before rounding |
| SalaryAdjustment.GapInvariant | services/geminiService.ts:318-322 | after the premium and after each of Steps C, D and E, avg is at most the market value and the gap is present exactly when avg is below it, holding the difference; so a final gap is positive |
| SalaryAdjustment.BeforeRounding | services/geminiService.ts:346-362 | Step E never raises the recommendation, brings it to at most a truthy desired salary, and keeps the distance from avg to max |
| SalaryAdjustment.NoScoresNoPremium | services/geminiService.ts:198-216 | no scores: no grade, no premium call, the baseline figures unchanged |
| SalaryAdjustment.RecommendationShape | services/geminiService.ts:366-370 | a completed recommendation is in tens, has min >= 0, avg <= max, min <= avg when avg >= 0, and a positive gap if any |
| SalaryAdjustment.StepCCanLiftMinAboveAvg | services/geminiService.ts:325-328 | Step C keeps min at the baseline min even when the offer falls below it, so min can exceed avg before rounding |
| SalaryAdjustment.BaselineOnlyCase | services/geminiService.ts:184-192 | with no scores and no negotiation inputs the recommendation is the baseline |
| SalaryAdjustment.BaselineGradeCase | services/geminiService.ts:283-326 | market 6000, previous 4000, company middle 4500, desired 7000 and a baseline grade give floor 4500, offer 5125 and gap 875 |
| SalaryAdjustment.DesiredCapCase | services/geminiService.ts:345-362 | capping those figures at 5000 moves all three down by 125 and the gap to 1000 |
| SalaryAdjustment.FinalData.constructor | services/geminiService.ts:184-192 | the result starts as the baseline, with no premium and no grade |
| SalaryAdjustment.FinalData.ApplyPremium | services/geminiService.ts:254-261 | the premium is added to min, avg and max, and premium and grade are recorded |
| SalaryAdjustment.FinalData.ApplyConservativeOffer | services/geminiService.ts:315-326 | Step C's field updates give exactly the figures of the Step C function |
| SalaryAdjustment.FinalData.ApplyCompanyCeiling | services/geminiService.ts:333-342 | Step D's field updates give exactly the figures of the Step D function |
| SalaryAdjustment.FinalData.ApplyDesiredCap | services/geminiService.ts:348-362 | Step E's field updates give exactly the figures of the Step E function |
| SalaryAdjustment.FinalData.NormalizeFigures | services/geminiService.ts:366-370 | the rounding writes the normalised figures and keeps the gap |
| SalaryAdjustment.Adjust | services/geminiService.ts:184-370 | rejected exactly when the competency call was made and failed with a rate-limit or credential error; otherwise figures in tens, min >= 0, avg <= max, min <= avg when avg >= 0, with the baseline and the held grade carried over |
| SalaryAdjustment.PremiumMonotone | services/geminiService.ts:254-370 | when the company ceiling is not below the company middle, a larger premium never lowers avg, before rounding or after |
| SalaryAdjustment.PremiumMonotoneFailsBelowMiddle | services/geminiService.ts:330-343 | with a company high below the middle, premium 100 gives 4000 and premium 200 gives 3000 |
| SalaryAdjustment.DesiredSalaryNotFixedPoint | services/geminiService.ts:293-363 | a result of 5000 reached without a desired salary becomes 4600 when 5000 is given as the desired salary |
| SalaryAdjustment.FetchSalaryAdjustment | services/geminiService.ts:184-370 | running the steps on the object yields Adjust(req): a rethrown rate-limit or credential failure, or the recommendation |
| SalaryResultView.CompetencyWeightWithReason | components/SalaryResult.tsx:842-850 | the screen's weight is the service's weight for every grade |
| SalaryResultView.ViewFloorMatchesService | components/SalaryResult.tsx:833-839 | the screen's floor is the service's floor for every input |
| SalaryResultView.ViewFloor | components/SalaryResult.tsx:833-839 | the floor is either the previous salary or the company middle, and is at least each of them that is truthy |
| SalaryResultView.Received | App.tsx:383-386 | the screen receives the baseline average, and a company standard only when it is tabular, with the same middle as the one the service used |
| SalaryResultView.ComputeBreakdown | components/SalaryResult.tsx:832-857 | the shown floor is the service's negotiation floor and the shown weight the service's weight; the offer before the cap never exceeds the market value |
| SalaryResultView.StrategicOfferIsCalculated | components/SalaryResult.tsx:853-855 | with a truthy floor and a desired salary above it, the screen's strategic offer is the service's calculatedOffer of its floor, the desired salary and its weight |
| SalaryResultView.StrategicOfferBounds | components/SalaryResult.tsx:853-855 | a strategic offer exists exactly when floor and desired salary are truthy and desired > floor, and then lies between them |
| SalaryResultView.BeforeCapAtMostMarketValue | components/SalaryResult.tsx:857 | the offer before the cap is at most the market value, and equals it without a strategic offer |
| SalaryResultView.ServiceResultReceived | services/geminiService.ts:555-556 | the data the screen receives carries the service's baseline, premium, grade, salaries and company middle |
| SalaryResultView.MarketValueAgrees | components/SalaryResult.tsx:832 | the screen's market value is the service's competency-adjusted average |
| SalaryResultView.FloorAgrees | components/SalaryResult.tsx:833-839 | the screen's floor is the one the service used |
| SalaryResultView.WeightAgrees | components/SalaryResult.tsx:851 | the screen's weight is the one Step C used |
| SalaryResultView.OfferAgrees | components/SalaryResult.tsx:853-857 | when Step C ran, the screen's strategic offer is Step C's offer and, with a positive floor, its offer before the cap is Step C's average |
| CompanySalaryTable.Structure | components/CompanySalaryTable.tsx:48-112 | every education has the same five positions and four grade bands named 초급..특급 from year 1 to 20, the later ones starting at the classifier's entry year and three and six years after it |
| CompanySalaryTable.StructureTiles | components/CompanySalaryTable.tsx:48-112 | in every education the levels and the positions each cover years 1..20 contiguously without overlap |
| CompanySalaryTable.TilesStartsIncrease | components/CompanySalaryTable.tsx:48-112 | bands tiling a range have increasing first years inside the range |
| CompanySalaryTable.LevelsMatchClassifier | components/CompanySalaryTable.tsx:52-111 | for years 1..20 the band holding a year is the level the calculator returns, under the same name |
| CompanySalaryTable.RowsBetweenClosedForm | components/CompanySalaryTable.tsx:176-183 | years first..last take 3 rows each, except year 1 which takes 1 |
| CompanySalaryTable.RowsBetweenSplit | components/CompanySalaryTable.tsx:176-183 | row counts add up over adjacent year ranges |
| CompanySalaryTable.RowSpan | components/CompanySalaryTable.tsx:176-183 | the loop computes a band's span as the rows of its years |
| CompanySalaryTable.TilingSpans | components/CompanySalaryTable.tsx:176-194 | the spans of bands tiling a range add up to the range's rows |
| CompanySalaryTable.IncreaseBase | components/CompanySalaryTable.tsx:239-246 | a base exists only for a previous year the table holds, and is that year's middle for year 2 and its high afterwards |
| CompanySalaryTable.YearValue | components/CompanySalaryTable.tsx:232 | a year missing from the table reads as null in every field; a set value is the table's value for that year and field |
| CompanySalaryTable.IncreaseAmount | components/CompanySalaryTable.tsx:237-253 | an increase exists exactly for a later year whose high and base are both set |
| CompanySalaryTable.IncreaseRate | components/CompanySalaryTable.tsx:249-251 | a rate exists exactly when the increase does and its base is positive |
| CompanySalaryTable.IncreasesTelescope | components/CompanySalaryTable.tsx:237-253 | the increases up to a year add up to its high minus year 1's middle |
| CompanySalaryTable.FindByStart | components/CompanySalaryTable.tsx:177 | find returns a band starting in the year, or none when no band does |
| CompanySalaryTable.CellsAppend | components/CompanySalaryTable.tsx:268-305 | the cells of concatenated rows are the concatenated cells |
| CompanySalaryTable.BandCellAt | components/CompanySalaryTable.tsx:176-194 | the cell emitted at a year is the cell of the band `find` returns for that year (its name, spanning its rows), or none; and the cells emitted so far are the first bands' cells in order |
| CompanySalaryTable.YearRows | components/CompanySalaryTable.tsx:268-305 | year 1 emits one middle row, a later year high, middle and low rows in that order, all of that year; only the first row carries the grade and position cells; each row shows the year's value for its field; a later year's high row shows the increase and rate, and every other row (year 1's, middle, low) shows none |
| CompanySalaryTable.LaterYearLayout | components/CompanySalaryTable.tsx:280-305 | the high, middle and low rows of a later year, with cells and increase columns on the high row only, are laid out in field order and show the year's values |
| CompanySalaryTable.RenderRows | components/CompanySalaryTable.tsx:166-309 | the 58 rows show every value of years 1..20, with increase and rate only on a later year's high row; the rows of year y start at row RowsBetween(1, y - 1), in field order, and that first row carries exactly the cells of the bands starting at y; each band's cell appears once, in order |
| CompanySalaryTable.RenderTableRows | components/CompanySalaryTable.tsx:166-309 | 58 rows laid out year by year as above, row k in year YearOfIndex(k); a grade or position cell sits only on the first row of a year where a band of that column starts; cells in order with spans adding up to the row count; each row shows its year's value; each later year's high row shows its increase and rate, and year 1's row and every middle and low row show none (the '-' of year 1) |
| CompanySalaryTable.LaidOutAppend | components/CompanySalaryTable.tsx:172-305 | appending a year's rows after the rows of the earlier years extends the year-by-year layout by that year |
| CompanySalaryTable.IndexInYear | components/CompanySalaryTable.tsx:172-305 | row k of the 58 lies within the rows of year YearOfIndex(k), a year of 1..20 |
| CompanySalaryTable.CellsOnFirstRows | components/CompanySalaryTable.tsx:176-194 | in a laid-out table every row k belongs to year YearOfIndex(k), and a grade or position cell appears only on the first row of a year at which a band starts |
| CompanySalaryTable.PositionAverage | components/CompanySalaryTable.tsx:130-160 | the loop over a position's years computes the averages of the specification, where year 1 gives its middle to all three lists |
| CompanySalaryTable.PositionAverageOf | components/CompanySalaryTable.tsx:124-163 | an empty band has no averages, and averages exist only if the table holds some year of the band |
| CompanySalaryTable.PositionAverageSalaries | components/CompanySalaryTable.tsx:124-163 | the keys are exactly the names of the education's positions, and each maps to that position's averages |
| CompanySalaryTable.AveragesByName | components/CompanySalaryTable.tsx:130-160 | with distinct names, the map holds each position's averages |
| CompanySalaryTable.StoreKeepsEarlier | components/CompanySalaryTable.tsx:157-159 | storing a position's averages under its name keeps the earlier positions' averages, their names being distinct |
| CompanySalaryTable.PositionNamesDistinct | components/CompanySalaryTable.tsx:48-112 | position names are distinct, so no average overwrites another |
| CompanySalaryTable.SeqMinMaxBound | components/CompanySalaryTable.tsx:154-156 | every collected value lies between the list's minimum and maximum |
| CompanySalaryTable.RoundedMean | components/CompanySalaryTable.tsx:154-156 | Math.round of the mean: the integer within half of the mean, halves rounding up |
| CompanySalaryTable.RoundedMeanBetween | components/CompanySalaryTable.tsx:154-156 | a rounded mean lies between the minimum and maximum of its values |
| CompanySalaryTable.RoundedMeanBelow | components/CompanySalaryTable.tsx:154-156 | element-wise smaller lists have a smaller or equal rounded mean |
| CompanySalaryTable.ContributionsBelow | components/CompanySalaryTable.tsx:140-151 | with low <= middle <= high set in every year, the collected lists have equal lengths and are ordered element-wise |
| CompanySalaryTable.PositionAveragesBounded | components/CompanySalaryTable.tsx:146-157 | each average lies between the minimum and maximum of its collected values |
| CompanySalaryTable.PositionAveragesOrdered | components/CompanySalaryTable.tsx:146-157 | when every year of the position has low <= middle <= high, the averages exist and avgLow <= avgMiddle <= avgHigh |
| CompanySalaryTable.FormatFullCurrency | components/CompanySalaryTable.tsx:118-122 | '-' exactly for null or NaN; otherwise the text starts with '₩' |
| CompanySalaryTable.FullCurrencyRoundTrip | components/CompanySalaryTable.tsx:118-122 | the currency text is '₩' followed by text that, without commas, parses back to the amount in won |
| CompanySalaryTable.HandleChange | components/CompanySalaryTable.tsx:25-28 | the empty field gives null and only the empty field does |
| CompanySalaryTable.InputRoundTrip | components/CompanySalaryTable.tsx:25-28 | reading back the text an input shows gives the value it shows |
| CompanySalaryTable.InputText | components/CompanySalaryTable.tsx:34 | the input is empty exactly for null; a number shows as a plain numeral, with a '-' exactly when negative |
| App.InitializeCompanySalaryTable | App.tsx:75-86 | the table has the four education levels, each with exactly the years 1..20, each the built-in entry or all null, with bachelor's table as the fallback |
| App.DefaultsFor | App.tsx:79 | an education with a built-in table gets that table; any result is one of the built-in tables (the bachelor fallback otherwise) |
| App.CompanySalaryStore.constructor | App.tsx:75-86 | the store starts with every education and the years 1..20 |
| App.CompanySalaryStore.HandleCompanySalaryChange | App.tsx:249-282 | the in-place edit of a copy leaves exactly the table of the edit function |
| App.ChangeCompanySalary | App.tsx:249-282 | the edit adds at most the edited education and year to the table and removes nothing |
| App.Shifted | App.tsx:267-272 | a set value stays set, becomes at least 0 and at least the shifted value, and is exactly the shifted value unless floored at 0; null stays null |
| App.EditTier | App.tsx:259-278 | the edited field takes the new value; a null field stays null; an edit that does not shift keeps the other fields; a high shift keeps low and middle at their old distance below high unless floored at 0 |
| App.ChangeTouchesOneTier | App.tsx:249-282 | the edited tier becomes the edited entry; every other education and year keeps its entry or its absence |
| App.PlainEditSetsOneField | App.tsx:259-278 | editing low or middle, clearing high, or editing a tier without a previous high sets exactly that field |
| App.HighEditShifts | App.tsx:259-272 | setting high from h to v sets high and moves set low and middle by v - h, floored at 0; unset ones stay unset |
| App.SameHighUnchanged | App.tsx:259-272 | setting high to its current value changes nothing when the set values are non-negative |
| App.HighEditKeepsOrder | App.tsx:259-272 | an ordered tier stays ordered when high is set to a non-negative value |
| App.HighEditUndone | App.tsx:259-272 | setting high to v and back restores the tier when no value was clamped at 0 |
| App.WithField | App.tsx:276-278 | the edited field takes the value and the others keep theirs |
| App.YearKey | App.tsx:328 | the year key lies in 1..20, is the experience itself inside that range and its nearest end outside it |
| App.CompanyStandardFor | App.tsx:325-352 | no education gives no standard; automatic mode gives only a tier, manual mode only a sentence and only when a level was chosen |
| App.AutoStandardFound | App.tsx:328-329 | on a table with years 1..20 automatic mode always finds the tier of the clamped year |
| App.AutoStandard | App.tsx:328-329 | automatic mode gives a tabular standard exactly when the table has a tier at the clamped year, and that tier |
| App.FindByName | App.tsx:335 | find returns a band with the searched name |
| App.FindByNameFirst | App.tsx:335 | find returns the first band with the name |
| App.ManualBandIsLevelBand | App.tsx:331-335 | stripping " 기술자" from the level's name finds that level's band in every education |
| App.ManualBand | App.tsx:331-335 | a found band carries the level name without " 기술자" and is one of the education's grade bands |
| App.ManualDescription | App.tsx:349 | the sentence names the level and both values with their 만원 unit |
| App.ManualBandMatchesClassifier | App.tsx:330-351 | the looked-up band holds exactly the years the automatic calculator classifies as that level |
| App.ManualStandardIsText | App.tsx:337-350 | manual mode yields a sentence exactly when the start value (year 1's middle, else the start year's high) and the end year's high are both set, and the sentence names the level, years and values |
| App.ManualStandard | App.tsx:331-350 | manual mode gives only a sentence, and exactly when the level's band is found, both of its end years are in the table, the end year has a high and the start year its middle (year 1) or high |
| App.ManualModeHasNoCompanyMiddle | App.tsx:330-351 | in manual mode the service finds no company middle or high, so the floor rests on the previous salary |
| App.PresentAll | App.tsx:186 | every criterion is scored exactly when filtering the nulls drops nothing |
| App.Present | App.tsx:186 | the entered scores are no more than the criteria, and each comes from an entered value |
| App.CompetencySummary | App.tsx:181-210 | a summary needs as many entered scores as the role has criteria, at least one, and its label is one of the four grade labels |
| App.SummaryGrade | App.tsx:196-204 | the summary's label of an average is the label of the service's grade for that average |
| App.SummaryAgreesWithService | App.tsx:181-210 | the summary appears exactly when the role has criteria and all of them are scored, and its grade is the service's grade of the same scores |
| HiringProposal.FormatSalary | components/HiringProposalPage.tsx:109 | '-' exactly for a missing or non-positive salary; otherwise the text ends with 만원 |
| HiringProposal.StripSalaryMarks | components/HiringProposalPage.tsx:119 | no comma is left, every character left comes from the text, and the text never grows |
| HiringProposal.BlurText | components/HiringProposalPage.tsx:117-125 | the blurred text reads back as the positive number the cell held, and as no number otherwise |
| HiringProposal.FocusText | components/HiringProposalPage.tsx:127-137 | '-' becomes empty; any other text keeps the number it reads as, and text holding a number becomes that number as a plain numeral (optional '-', digits, no leading zero) |
| HiringProposal.ParsedSalary | components/HiringProposalPage.tsx:119 | a number is read only from text that contains a digit |
| HiringProposal.StripFormatted | components/HiringProposalPage.tsx:109-119 | stripping a formatted salary leaves its plain digits |
| HiringProposal.StripNumberToString | components/HiringProposalPage.tsx:133-136 | the plain number focus writes has no marks to strip |
| HiringProposal.DashIsNaN | components/HiringProposalPage.tsx:119-124 | parseInt finds no number in '-' |
| HiringProposal.FormattedReadsBack | components/HiringProposalPage.tsx:109-119 | text written by formatSalary reads back as its salary, or as no number when it is '-' |
| HiringProposal.BlurShape | components/HiringProposalPage.tsx:117-125 | blur writes '-' exactly when the text holds no positive number, and otherwise formatSalary's text of that number |
| HiringProposal.BlurKeepsFormatted | components/HiringProposalPage.tsx:109-125 | blur keeps formatSalary's text unchanged |
| HiringProposal.BlurIdempotent | components/HiringProposalPage.tsx:117-125 | blurring twice is blurring once |
| HiringProposal.FocusOfBlurred | components/HiringProposalPage.tsx:127-137 | focusing a blurred cell leaves '' for '-' and otherwise the salary's plain digits |
| HiringProposal.FocusKeepsBlur | components/HiringProposalPage.tsx:117-137 | focus never changes what the next blur writes |
| HiringProposal.BlurFocusBlur | components/HiringProposalPage.tsx:117-137 | blur, focus and blur again gives the text of one blur |
| HiringProposal.FocusKeepsUnparsable | components/HiringProposalPage.tsx:133-136 | focus leaves text without a number unchanged |
| HiringProposal.SalaryCell.constructor | components/HiringProposalPage.tsx:109 | a cell starts with formatSalary's text |
| HiringProposal.SalaryCell.HandleSalaryBlur | components/HiringProposalPage.tsx:117-125 | the handler writes the blurred text into the cell |
| HiringProposal.SalaryCell.HandleSalaryFocus | components/HiringProposalPage.tsx:127-137 | the handler writes the focused text into the cell |
| LoadingSpinner.FirstKeyFrom | components/LoadingSpinner.tsx:11 | find returns the first key from the given position on that the message contains, and none exactly when no later key occurs |
| LoadingSpinner.EmojiFor | components/LoadingSpinner.tsx:10-13 | the emoji is the default or that of a key the message contains, and a message containing 시장 always gets its emoji |
| LoadingSpinner.EmojiIsFirstMatch | components/LoadingSpinner.tsx:10-13 | entry k's emoji is shown exactly when the message contains its key and none of the keys before it |
| LoadingSpinner.DefaultExactlyWithoutKeys | components/LoadingSpinner.tsx:12 | the default emoji is shown exactly when the message contains no key |
| LoadingSpinner.MarketComesFirst | components/LoadingSpinner.tsx:3-11 | a message mentioning the market always gets the chart |
| LoadingSpinner.EmptyMessageDefault | components/LoadingSpinner.tsx:12 | the empty message gets the default emoji |
| LoadingSpinner.LoadingEmojiDistinct | components/LoadingSpinner.tsx:10-16 | the four loading messages get the chart, the sparkles, the handshake and the memo, and the default message the thinking face |

## Left out

- The language-model calls are not modelled: prompts, `generateContent`, `JSON.parse` of the answers, and the later analysis calls after the adjustment. Their outputs are inputs here. The competency call is modelled only as its answer or the value it threw.
- The user-facing error texts are not modelled. A rejection is represented by its error type.
- The rethrow logic of the final-summary call is not modelled. It comes after the adjustment and does not change the figures.
- React rendering, modals, key listeners, DOM measurement, `localStorage`, PDF and print export, charts and the timer cycling the loading messages are UI or I/O.
- Floating point is not modelled: salaries are exact rationals and unbounded integers, and the weights and 1.15 are exact. JavaScript doubles differ at half-way ties, and above 2^53 integers are not exact: blurring "12345678901234567" writes "12,345,678,901,234,568만원" in JavaScript (components/HiringProposalPage.tsx:119-121) but keeps the last digit 7 here, and the `value * 10000` of formatFullCurrency (components/CompanySalaryTable.tsx:120) loses digits once the value exceeds about 9×10^11.
- `toFixed` formatting of the increase rate and of the average score is left out.
- `toLocaleString` is modelled as fixed three-digit comma grouping. Other locales are not modelled.
- `String(n)` is modelled for integers only. Exponent notation from 10^21 up is not modelled.
- `toLowerCase` maps ASCII letters only. JavaScript also lowers other letters, some of them onto ASCII (the Kelvin sign U+212A becomes 'k'), so a message can match an error keyword in JavaScript and not in the model.
- Table cells hold integers or null. A NaN typed into an input is not stored in the table model, and neither is the JSON deep copy turning NaN into null.
- CompanySalaryTable.RenderTableRows: the position-average cell's content is not part of a row. Its values are the ones PositionAverageSalaries computes.
- The static salary tables and job data are inputs. The built-in tables are a parameter of InitializeCompanySalaryTable.
- App.SameHighUnchanged: requires non-negative low and middle, because the edit raises a negative value to 0.
- SalaryResultView.OfferAgrees: the pre-cap offer is proved equal to Step C's average only for a positive floor. The screen treats a strategic offer of 0 as absent, and such an offer needs a floor of 0 or below, which salary inputs clamped at 0 do not produce.
- HiringProposal.SalaryCell: `textContent || ''` is modelled by the cell always holding a string.
- App.CompanySalaryStore.HandleCompanySalaryChange: the caller's table is a value, so aliasing between the previous state and the copy is not modelled.
