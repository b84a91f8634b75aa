/** The deterministic helpers of the salary service: the classification of
    errors raised by the language-model client, the stripping of code fences
    from its JSON answers, the competency grade computed from rubric scores and
    the grade-to-weight table of the negotiation step. */
module GeminiService {
  import opened Common
  import opened JsText

  // ---------------------------------------------------------------------
  // Error classification

  /** A value caught by a `catch` clause: an Error object with its message,
      or anything else that was thrown. */
  datatype Thrown = ErrorInstance(message: string) | OtherValue

  datatype ErrorType = RateLimit | InvalidKey | ServerError | Unknown

  const RateLimitKeys: seq<string> := ["429", "resource_exhausted", "rate limit", "quota"]
  const InvalidKeyKeys: seq<string> := ["api key not valid", "permission_denied", "403"]
  const ServerErrorKeys: seq<string> :=
    ["500", "503", "internal error", "server error", "service unavailable"]

  /** Some key of the list occurs in s. */
  predicate ContainsAny(s: string, keys: seq<string>)
    ensures ContainsAny(s, keys) <==> exists i :: 0 <= i < |keys| && Contains(s, keys[i])
  {
    |keys| > 0 && (Contains(s, keys[0]) || ContainsAny(s, keys[1..]))
  }

  /** getGeminiErrorType: case-insensitive keyword search over the message of an
      Error, rate limiting first, then invalid credentials, then server errors;
      anything else is UNKNOWN. */
  function GeminiErrorType(error: Thrown): (t: ErrorType)
    ensures error.OtherValue? ==> t == Unknown
    ensures t == RateLimit ==> ContainsAny(ToLower(error.message), RateLimitKeys)
    ensures t == InvalidKey ==> !ContainsAny(ToLower(error.message), RateLimitKeys)
                                && ContainsAny(ToLower(error.message), InvalidKeyKeys)
    ensures t == ServerError ==> !ContainsAny(ToLower(error.message), RateLimitKeys)
                                 && !ContainsAny(ToLower(error.message), InvalidKeyKeys)
                                 && ContainsAny(ToLower(error.message), ServerErrorKeys)
    ensures t == Unknown && error.ErrorInstance? ==>
              !ContainsAny(ToLower(error.message), RateLimitKeys + InvalidKeyKeys + ServerErrorKeys)
  {
    match error
    case OtherValue => Unknown
    case ErrorInstance(msg) =>
      var message := ToLower(msg);
      if ContainsAny(message, RateLimitKeys) then RateLimit
      else if ContainsAny(message, InvalidKeyKeys) then InvalidKey
      else if ContainsAny(message, ServerErrorKeys) then ServerError
      else
        ContainsAnyConcat(message, RateLimitKeys, InvalidKeyKeys);
        ContainsAnyConcat(message, RateLimitKeys + InvalidKeyKeys, ServerErrorKeys);
        Unknown
  }

  /** Searching a concatenated key list is searching either list. */
  lemma {:induction false} ContainsAnyConcat(s: string, k1: seq<string>, k2: seq<string>)
    ensures ContainsAny(s, k1 + k2) <==> ContainsAny(s, k1) || ContainsAny(s, k2)
  {
    if k1 == [] {
      assert k1 + k2 == k2;
    } else {
      assert (k1 + k2)[0] == k1[0];
      assert (k1 + k2)[1..] == k1[1..] + k2;
      ContainsAnyConcat(s, k1[1..], k2);
    }
  }

  /** A keyword found in a part of a string is found in the whole string. */
  lemma {:induction false} ContainsAnyInContext(a: string, m: string, b: string, keys: seq<string>)
    requires ContainsAny(m, keys)
    ensures ContainsAny(a + m + b, keys)
  {
    if Contains(m, keys[0]) {
      ContainsExtendLeft(a, m, keys[0]);
      ContainsExtendRight(a + m, b, keys[0]);
    } else {
      ContainsAnyInContext(a, m, b, keys[1..]);
    }
  }

  /** The classification ignores letter case: lower-casing the message first
      changes nothing. */
  lemma ErrorTypeIgnoresCase(message: string)
    ensures GeminiErrorType(ErrorInstance(ToLower(message))) == GeminiErrorType(ErrorInstance(message))
  {
    ToLowerIdempotent(message);
  }

  /** Rate limiting has the highest priority: a message classified RATE_LIMIT
      stays RATE_LIMIT whatever text surrounds it, even text naming an invalid
      key or a server error. */
  lemma RateLimitDominates(before: string, message: string, after: string)
    requires GeminiErrorType(ErrorInstance(message)) == RateLimit
    ensures GeminiErrorType(ErrorInstance(before + message + after)) == RateLimit
  {
    ToLowerAppend(before + message, after);
    ToLowerAppend(before, message);
    ContainsAnyInContext(ToLower(before), ToLower(message), ToLower(after), RateLimitKeys);
  }

  /** An upper-case status text is recognised like its lower-case form. */
  lemma ResourceExhaustedIsRateLimit()
    ensures GeminiErrorType(ErrorInstance("RESOURCE_EXHAUSTED")) == RateLimit
  {
    assert ToLower("RESOURCE_EXHAUSTED") == "resource_exhausted";
    assert StartsWith("resource_exhausted", RateLimitKeys[1]);
  }

  // ---------------------------------------------------------------------
  // Code-fence stripping of the JSON answers

  const FenceOpenLine: string := "```json\n"
  const FenceClose: string := "```"

  /** `replace(/^```json\n?/, '')` followed by `replace(/\n?```$/, '')`. The
      second pattern is anchored at the end, so its leftmost match is the
      closing fence together with the line break before it, if any. */
  function StripJsonFence(text: string): (r: string)
    ensures |r| <= |text|
    ensures !StartsWith(text, "```json") ==> r == text[..|r|]
    ensures !EndsWith(text, FenceClose) ==> r == text[|text| - |r|..]
  {
    OpenLineStartsFence(text);
    var cut := if StartsWith(text, FenceOpenLine) then 8 else if StartsWith(text, "```json") then 7 else 0;
    var afterOpen := text[cut..];
    var keep := if EndsWith(afterOpen, "\n```") then |afterOpen| - 4
                else if EndsWith(afterOpen, FenceClose) then |afterOpen| - 3
                else |afterOpen|;
    FenceCloseAtEnd(text, cut);
    afterOpen[..keep]
  }

  /** An opening line starts with the opening fence. */
  lemma OpenLineStartsFence(text: string)
    ensures StartsWith(text, FenceOpenLine) ==> StartsWith(text, "```json")
  {
    if StartsWith(text, FenceOpenLine) {
      assert text[..7] == text[..8][..7];
    }
  }

  /** A closing fence found after the opening one ends the whole text. */
  lemma FenceCloseAtEnd(text: string, cut: nat)
    requires cut <= |text|
    ensures EndsWith(text[cut..], "\n```") || EndsWith(text[cut..], FenceClose) ==> EndsWith(text, FenceClose)
  {
    var rest := text[cut..];
    if EndsWith(rest, "\n```") {
      assert rest[|rest| - 3..] == rest[|rest| - 4..][1..];
    }
    if EndsWith(rest, FenceClose) {
      assert rest[|rest| - 3..] == text[|text| - 3..];
    }
  }

  /** `response.text.trim()` and the fence stripping, as the service applies
      them before `JSON.parse`. */
  function CleanJsonText(responseText: string): (r: string)
    ensures var trimmed := Trim(responseText);
      !StartsWith(trimmed, "```json") && !EndsWith(trimmed, FenceClose) ==> r == trimmed
    ensures !StartsWith(Trim(responseText), "```json") ==> r == [] || !IsJsWhitespace(r[0])
  {
    var trimmed := Trim(responseText);
    var r := StripJsonFence(trimmed);
    assert !StartsWith(trimmed, "```json") && r != [] ==> r[0] == trimmed[0];
    if !StartsWith(trimmed, "```json") && !EndsWith(trimmed, FenceClose) then
      UnfencedUntouched(trimmed);
      r
    else r
  }

  /** Stripping recovers any body wrapped in a json code fence. */
  lemma FenceRoundTrip(body: string)
    ensures StripJsonFence(FenceOpenLine + body + "\n```") == body
  {
    var text := FenceOpenLine + body + "\n```";
    assert StartsWith(text, FenceOpenLine);
    assert text[8..] == body + "\n```";
    assert (body + "\n```")[..|body|] == body;
  }

  /** A fenced answer, as the model sends it, is cleaned to its body. */
  lemma CleanFencedAnswer(body: string)
    ensures CleanJsonText(FenceOpenLine + body + "\n```") == body
  {
    var text := FenceOpenLine + body + "\n```";
    TrimUntouched(text);
    FenceRoundTrip(body);
  }

  /** An answer without fences passes through unchanged. */
  lemma UnfencedUntouched(text: string)
    requires !StartsWith(text, "```json") && !EndsWith(text, FenceClose)
    ensures StripJsonFence(text) == text
  {
    if |text| >= 4 {
      assert text[|text| - 4..][1..] == text[|text| - 3..];
    }
    if |text| >= 8 {
      assert text[..8][..7] == text[..7];
    }
  }

  // ---------------------------------------------------------------------
  // Competency grade and weight

  /** The four competency grades, lowest first. */
  datatype Grade = NeedsReview | Baseline | Strong | KeyTalent
  {
    function Rank(): nat
    {
      match this
      case NeedsReview => 0
      case Baseline => 1
      case Strong => 2
      case KeyTalent => 3
    }

    /** The label the application shows and sends to the model. */
    function Label(): string
    {
      match this
      case NeedsReview => "추가 검토 필요"
      case Baseline => "기본 역량 보유"
      case Strong => "우수 역량 보유"
      case KeyTalent => "핵심 인재"
    }
  }

  function Sum(xs: seq<int>): int
  {
    if xs == [] then 0 else Sum(xs[..|xs| - 1]) + xs[|xs| - 1]
  }

  /** The arithmetic mean, computed exactly. */
  function Mean(xs: seq<int>): (m: real)
    requires |xs| > 0
    ensures m * |xs| as real == Sum(xs) as real
  {
    Sum(xs) as real / |xs| as real
  }

  /** The grade of a mean rubric score: below 2.0 needs review, up to 2.7
      baseline, up to 3.5 strong, above that key talent. */
  function GradeOfMean(average: real): (g: Grade)
    ensures g == NeedsReview <==> average < 2.0
    ensures g == Baseline <==> 2.0 <= average <= 2.7
    ensures g == Strong <==> 2.7 < average <= 3.5
    ensures g == KeyTalent <==> 3.5 < average
  {
    if average < 2.0 then NeedsReview
    else if average <= 2.7 then Baseline
    else if average <= 3.5 then Strong
    else KeyTalent
  }

  /** The grade classifier of the service: no scores, no grade. */
  function ClassifyCompetency(scores: seq<int>): (g: Option<Grade>)
    ensures g.None? <==> scores == []
    ensures g == Some(NeedsReview) <==> scores != [] && Sum(scores) as real < 2.0 * |scores| as real
    ensures g == Some(Baseline) <==>
              scores != [] && 2.0 * |scores| as real <= Sum(scores) as real <= 2.7 * |scores| as real
    ensures g == Some(Strong) <==>
              scores != [] && 2.7 * |scores| as real < Sum(scores) as real <= 3.5 * |scores| as real
    ensures g == Some(KeyTalent) <==> scores != [] && 3.5 * |scores| as real < Sum(scores) as real
  {
    if scores == [] then None
    else
      MeanCompare(scores, 2.0);
      MeanCompare(scores, 2.7);
      MeanCompare(scores, 3.5);
      Some(GradeOfMean(Mean(scores)))
  }

  /** Comparing the mean with a bound is comparing the sum with the bound times
      the count. */
  lemma MeanCompare(xs: seq<int>, c: real)
    requires |xs| > 0
    ensures Mean(xs) < c <==> Sum(xs) as real < c * |xs| as real
    ensures Mean(xs) <= c <==> Sum(xs) as real <= c * |xs| as real
  {
    var n := |xs| as real;
    var m := Mean(xs);
    assert m * n == Sum(xs) as real;
    if m < c {
      assert m * n < c * n;
    }
    if m <= c {
      assert m * n <= c * n;
    }
    if m > c {
      assert m * n > c * n;
    }
    if m >= c {
      assert m * n >= c * n;
    }
  }

  /** A higher mean never gives a lower grade, and the thresholds are the
      boundaries between the grades. */
  lemma GradeMonotone(a: real, b: real)
    requires a <= b
    ensures GradeOfMean(a).Rank() <= GradeOfMean(b).Rank()
  {
  }

  /** Weight of the desired salary in the negotiation interpolation, by the
      grade label the service holds (unknown or absent labels weigh as a
      strong candidate). */
  function CompetencyWeight(grade: Option<string>): (w: real)
    ensures 0.0 < w < 1.0
  {
    if grade == Some(KeyTalent.Label()) then 0.8
    else if grade == Some(Strong.Label()) then 0.6
    else if grade == Some(Baseline.Label()) then 0.25
    else if grade == Some(NeedsReview.Label()) then 0.1
    else 0.6
  }

  /** A higher grade always weighs the desired salary more. */
  lemma WeightFollowsGrade(g1: Grade, g2: Grade)
    requires g1.Rank() < g2.Rank()
    ensures CompetencyWeight(Some(g1.Label())) < CompetencyWeight(Some(g2.Label()))
  {
  }

  /** The exact table: 4/5, 3/5, 1/4 and 1/10, and 3/5 without a known grade. */
  lemma WeightTable(grade: Option<string>)
    ensures CompetencyWeight(Some(KeyTalent.Label())) == 4.0 / 5.0
    ensures CompetencyWeight(Some(Strong.Label())) == 3.0 / 5.0
    ensures CompetencyWeight(Some(Baseline.Label())) == 1.0 / 4.0
    ensures CompetencyWeight(Some(NeedsReview.Label())) == 1.0 / 10.0
    ensures (forall g: Grade :: grade != Some(g.Label())) ==> CompetencyWeight(grade) == 3.0 / 5.0
  {
    if forall g: Grade :: grade != Some(g.Label()) {
      assert grade != Some(KeyTalent.Label());
      assert grade != Some(Strong.Label());
      assert grade != Some(Baseline.Label());
      assert grade != Some(NeedsReview.Label());
    }
  }
}
