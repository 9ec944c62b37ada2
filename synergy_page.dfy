/** The helpers of the cross-domain synergy page that turn the synergy
    list and the investment form into an investment report: the high and
    medium synergy selections and their totals, the ROI estimate, the risk
    label, the project timeline, the risk mitigation strategies, the value
    formatting used in the text report, and the score colour. */
module SynergyPage {
  import opened Wrappers
  import opened Numeric
  import opened Text
  import opened Sorting
  import opened JsNumber

  /** A synergy between two projects as the page receives it; optional
      fields are `None` when absent. */
  datatype SynergyPair = SynergyPair(
    projectATitle: string, domainA: string, projectBTitle: string, domainB: string,
    score: real,
    fundingA: Option<real>, fundingB: Option<real>,
    citationsA: Option<int>, citationsB: Option<int>,
    expectedRoi: Option<real>, riskLevel: Option<string>)

  /** The investment dialog's form fields, as typed. */
  datatype InvestmentForm = InvestmentForm(
    budget: string, timeline: string, riskTolerance: string, focusAreas: string, objectives: string)

  predicate IsHigh(s: SynergyPair) { s.score > 0.7 }
  predicate IsMedium(s: SynergyPair) { s.score > 0.4 && s.score <= 0.7 }

  /** `(A_Funding || 0) + (B_Funding || 0)`. */
  function PairFunding(s: SynergyPair): real { s.fundingA.GetOr(0.0) + s.fundingB.GetOr(0.0) }
  function PairCitations(s: SynergyPair): int { s.citationsA.GetOr(0) + s.citationsB.GetOr(0) }

  /** The `reduce` sums over a list of synergies. */
  function TotalFunding(ss: seq<SynergyPair>): real {
    if ss == [] then 0.0 else PairFunding(ss[0]) + TotalFunding(ss[1..])
  }
  function TotalCitations(ss: seq<SynergyPair>): int {
    if ss == [] then 0 else PairCitations(ss[0]) + TotalCitations(ss[1..])
  }
  function TotalScore(ss: seq<SynergyPair>): real {
    if ss == [] then 0.0 else ss[0].score + TotalScore(ss[1..])
  }
  function TotalRoi(ss: seq<SynergyPair>): real {
    if ss == [] then 0.0 else ss[0].expectedRoi.GetOr(0.0) + TotalRoi(ss[1..])
  }

  /** The funding of the pairs that satisfy `p`, added over the whole list. */
  function FundingWhere(ss: seq<SynergyPair>, p: SynergyPair -> bool): real {
    if ss == [] then 0.0 else (if p(ss[0]) then PairFunding(ss[0]) else 0.0) + FundingWhere(ss[1..], p)
  }

  /** Summing over the selected pairs is summing, over all pairs, the
      funding of those selected. */
  lemma {:induction false} TotalFundingFilter(ss: seq<SynergyPair>, p: SynergyPair -> bool)
    ensures TotalFunding(Filter(ss, p)) == FundingWhere(ss, p)
  {
    if ss != [] {
      TotalFundingFilter(ss[1..], p);
      var rest := Filter(ss[1..], p);
      if p(ss[0]) {
        assert Filter(ss, p) == [ss[0]] + rest;
        assert ([ss[0]] + rest)[1..] == rest;
      } else {
        assert Filter(ss, p) == rest;
      }
    }
  }

  /** With no negative funding, the selected pairs never need more than
      all pairs together. */
  lemma {:induction false} FundingWhereBounded(ss: seq<SynergyPair>, p: SynergyPair -> bool)
    requires forall k :: 0 <= k < |ss| ==> PairFunding(ss[k]) >= 0.0
    ensures 0.0 <= FundingWhere(ss, p) <= TotalFunding(ss)
  {
    if ss != [] {
      assert PairFunding(ss[0]) >= 0.0;
      assert forall k :: 0 <= k < |ss[1..]| ==> PairFunding(ss[1..][k]) >= 0.0 by {
        forall k | 0 <= k < |ss[1..]| ensures PairFunding(ss[1..][k]) >= 0.0 {
          assert ss[1..][k] == ss[k + 1];
        }
      }
      FundingWhereBounded(ss[1..], p);
    }
  }

  /** A selected synergy with its totals (`recommendedSynergies` and
      `alternativeSynergies` entries; the funding breakdown only copies
      fields of `pair`). */
  datatype Entry = Entry(pair: SynergyPair, totalFunding: real, totalCitations: int)

  function Entries(ss: seq<SynergyPair>): (r: seq<Entry>)
    ensures |r| == |ss|
    ensures forall k :: 0 <= k < |r| ==> r[k] == Entry(ss[k], PairFunding(ss[k]), PairCitations(ss[k]))
  {
    if ss == [] then [] else [Entry(ss[0], PairFunding(ss[0]), PairCitations(ss[0]))] + Entries(ss[1..])
  }

  /** The three project phases of the timeline recommendation. */
  datatype Timeline = Timeline(phase1: string, phase2: string, phase3: string)

  /** The report `generateInvestmentReport` builds (without the highlights
      and success metrics). */
  datatype Report = Report(
    form: InvestmentForm,
    totalFundingRequired: real, budgetUtilization: Number, estimatedRoi: Number, avgRoi: Number,
    recommended: seq<Entry>, alternative: seq<Entry>,
    totalCitations: int, avgCitationsPerProject: Number,
    riskAssessment: string, timeline: Timeline, riskMitigation: seq<string>)

  /** `parseFloat(budget) || 0`; `parseFloat` gives no infinity, and a
      zero result and the default agree. */
  function BudgetNumber(budget: string): (b: real)
    ensures ParseFloat(budget).NaN? ==> b == 0.0
    ensures ParseFloat(budget).Finite? ==> b == ParseFloat(budget).value
  {
    var n := ParseFloat(budget);
    if n.Finite? then n.value else 0.0
  }

  /** The plain average score, 0 for an empty list. */
  function AverageScore(ss: seq<SynergyPair>): real {
    if ss == [] then 0.0 else TotalScore(ss) / |ss| as real
  }

  /** The mean score as the page computes it: NaN for an empty list. */
  function MeanScore(ss: seq<SynergyPair>): (n: Number)
    ensures ss == [] <==> n.NaN?
    ensures ss != [] ==> n == Finite(AverageScore(ss))
  {
    Div(TotalScore(ss), |ss| as real)
  }

  /** `calculateROI`. */
  function CalculateRoi(budget: string, ss: seq<SynergyPair>): Number {
    RoiFor(BudgetNumber(budget), ss)
  }

  /** `budgetNum * avgSynergy * 2.5`. */
  function RoiShare(b: real, mean: real): real { b * mean * 2.5 }

  /** The estimate for a budget already read as a number: NaN without
      synergies, otherwise the budget times the mean score times 2.5,
      rounded to the nearest integer. */
  function RoiFor(b: real, ss: seq<SynergyPair>): (r: Number)
    ensures ss == [] ==> r == NaN
    ensures ss != [] ==> r == Finite(JsRound(RoiShare(b, AverageScore(ss))) as real)
  {
    match MeanScore(ss)
    case Finite(mean) =>
      var x := b * mean * 2.5;
      assert x == RoiShare(b, AverageScore(ss));
      Round(Finite(x))
    case _ => NaN
  }

  /** With a non-negative budget and scores in [0, 1] the estimate lies
      between 0 and two and a half times the budget, up to rounding. */
  lemma RoiBounds(b: real, ss: seq<SynergyPair>)
    requires ss != [] && b >= 0.0
    requires forall k :: 0 <= k < |ss| ==> 0.0 <= ss[k].score <= 1.0
    ensures var r := RoiFor(b, ss); r.Finite? && -0.5 < r.value <= b * 2.5 + 0.5
  {
    ScoresBounded(ss);
    MeanBounded(TotalScore(ss), |ss|);
    RoundedShare(b, AverageScore(ss));
  }

  lemma RoundedShare(b: real, m: real)
    requires b >= 0.0 && 0.0 <= m <= 1.0
    ensures -0.5 < JsRound(RoiShare(b, m)) as real <= b * 2.5 + 0.5
  {
    assert b - b * m == b * (1.0 - m);
    assert 0.0 <= b * m <= b;
  }

  lemma {:induction false} ScoresBounded(ss: seq<SynergyPair>)
    requires forall k :: 0 <= k < |ss| ==> 0.0 <= ss[k].score <= 1.0
    ensures 0.0 <= TotalScore(ss) <= |ss| as real
  {
    if ss != [] {
      assert ss[0].score <= 1.0;
      assert forall k :: 0 <= k < |ss[1..]| ==> 0.0 <= ss[1..][k].score <= 1.0 by {
        forall k | 0 <= k < |ss[1..]| ensures 0.0 <= ss[1..][k].score <= 1.0 {
          assert ss[1..][k] == ss[k + 1];
        }
      }
      ScoresBounded(ss[1..]);
    }
  }

  lemma MeanBounded(total: real, n: nat)
    requires n > 0 && 0.0 <= total <= n as real
    ensures 0.0 <= total / n as real <= 1.0
  {
    var q := total / n as real;
    assert q * n as real == total;
    assert (1.0 - q) * n as real == n as real - total;
  }

  /** `avgSynergy > c`, which is false for NaN. */
  predicate Above(n: Number, c: real) {
    match n
    case Finite(x) => x > c
    case NaN => false
    case Infinity(neg) => !neg
  }

  /** `assessRisk`. */
  function AssessRisk(riskTolerance: string, ss: seq<SynergyPair>): string {
    var avg := MeanScore(ss);
    if riskTolerance == "Low" && Above(avg, 0.8) then "Low Risk"
    else if riskTolerance == "Medium" && Above(avg, 0.6) then "Medium Risk"
    else if riskTolerance == "High" then "High Risk - High Reward"
    else "Moderate Risk"
  }

  /** The label is one of four, decided by the tolerance and the mean score
      in that order; without synergies the mean is NaN, so only "High"
      changes the default. */
  lemma AssessRiskSpec(riskTolerance: string, ss: seq<SynergyPair>)
    ensures var r := AssessRisk(riskTolerance, ss); var mean := AverageScore(ss);
      (r == "Low Risk" <==> riskTolerance == "Low" && ss != [] && mean > 0.8) &&
      (r == "Medium Risk" <==> riskTolerance == "Medium" && ss != [] && mean > 0.6) &&
      (r == "High Risk - High Reward" <==> riskTolerance == "High") &&
      (r == "Moderate Risk" <==>
        riskTolerance != "High" &&
        !(riskTolerance == "Low" && ss != [] && mean > 0.8) &&
        !(riskTolerance == "Medium" && ss != [] && mean > 0.6))
  {
    var r := AssessRisk(riskTolerance, ss);
    assert Above(MeanScore(ss), 0.8) <==> ss != [] && AverageScore(ss) > 0.8;
    assert Above(MeanScore(ss), 0.6) <==> ss != [] && AverageScore(ss) > 0.6;
    assert "Low Risk"[0] == 'L' && "Medium Risk"[0] == 'M' && "High Risk - High Reward"[0] == 'H';
    assert "Moderate Risk"[1] == 'o' && "Medium Risk"[1] == 'e';
  }

  /** `parseInt(timeline) || 12`. */
  function TimelineMonths(timeline: string): int {
    match ParseInt(timeline)
    case Some(m) => if m == 0 then 12 else m
    case None => 12
  }

  /** `Math.ceil(months / 3)` and `Math.ceil(months * 2 / 3)`. */
  function FirstPhaseEnd(months: int): int { Ceil(months as real / 3.0) }
  function SecondPhaseEnd(months: int): int { Ceil((months * 2) as real / 3.0) }

  /** `generateTimelineRecommendations`. */
  function TimelineRecommendations(timeline: string): Timeline {
    var m := TimelineMonths(timeline);
    var a, b := FirstPhaseEnd(m), SecondPhaseEnd(m);
    Timeline(
      "Months 1-" + IntToString(a) + ": Foundation and initial collaborations",
      "Months " + IntToString(a + 1) + "-" + IntToString(b) + ": Core synergy development",
      "Months " + IntToString(b + 1) + "-" + IntToString(m) + ": Scaling and optimization")
  }

  /** For a positive number of months the three phases 1..a, a+1..b and
      b+1..m follow each other without gap or overlap and cover 1..m; the
      first ends at the first third, the second at two thirds. */
  lemma PhasesCover(months: int)
    requires months >= 1
    ensures var a, b := FirstPhaseEnd(months), SecondPhaseEnd(months);
      1 <= a <= b <= months &&
      3 * (a - 1) < months <= 3 * a &&
      3 * (b - 1) < 2 * months <= 3 * b
  {
    var a, b := FirstPhaseEnd(months), SecondPhaseEnd(months);
    assert months as real / 3.0 <= a as real < months as real / 3.0 + 1.0;
    assert (months * 2) as real / 3.0 <= b as real < (months * 2) as real / 3.0 + 1.0;
  }

  /** A timeline field that starts with a non-zero count reads as that
      many months ("18 months" gives 18); one without a count, or with 0,
      gives the twelve-month default, split 4 / 8 / 12. */
  lemma TimelineMonthsSpec(i: int, rest: string, timeline: string)
    requires rest == [] || !IsDigit(rest[0])
    ensures i != 0 ==> TimelineMonths(IntToString(i) + rest) == i
    ensures ParseInt(timeline).None? ==>
      TimelineMonths(timeline) == 12 && FirstPhaseEnd(12) == 4 && SecondPhaseEnd(12) == 8
  {
    ParseIntRendered(i, rest);
    assert 12 as real / 3.0 == 4.0 && (12 * 2) as real / 3.0 == 8.0;
  }

  const ConservativeStrategies: seq<string> := [
    "Focus on Active projects with proven track records",
    "Prioritize synergies with high citation counts",
    "Implement phased funding approach",
    "Establish regular progress monitoring"]

  const BalancedStrategies: seq<string> := [
    "Balance between Active and new projects",
    "Diversify across multiple domains",
    "Set milestone-based funding releases",
    "Create contingency plans for each synergy"]

  const AggressiveStrategies: seq<string> := [
    "Embrace high-potential but higher-risk projects",
    "Invest in cutting-edge research areas",
    "Implement rapid prototyping approach",
    "Establish quick pivot capabilities"]

  /** `generateRiskMitigationStrategies`. */
  function RiskMitigationStrategies(riskTolerance: string): seq<string> {
    if riskTolerance == "Low" then ConservativeStrategies
    else if riskTolerance == "Medium" then BalancedStrategies
    else AggressiveStrategies
  }

  /** Exactly four strategies; "Low" and "Medium" get their own sets and
      every other tolerance, the empty one included, gets the aggressive
      set. */
  lemma RiskMitigationSpec(riskTolerance: string)
    ensures |RiskMitigationStrategies(riskTolerance)| == 4
    ensures riskTolerance == "Low" ==> RiskMitigationStrategies(riskTolerance)[2] == "Implement phased funding approach"
    ensures riskTolerance == "Medium" ==> RiskMitigationStrategies(riskTolerance)[2] == "Set milestone-based funding releases"
    ensures riskTolerance != "Low" && riskTolerance != "Medium" ==>
      RiskMitigationStrategies(riskTolerance) == AggressiveStrategies
  {
  }

  /** The high synergies (score above 0.7) and the medium ones (above 0.4
      and at most 0.7), in input order. */
  function HighSynergies(ss: seq<SynergyPair>): seq<SynergyPair> { Filter(ss, IsHigh) }
  function MediumSynergies(ss: seq<SynergyPair>): seq<SynergyPair> { Filter(ss, IsMedium) }

  /** `highSynergies.slice(0, 5)` with their totals. */
  function Recommended(ss: seq<SynergyPair>): seq<Entry> { Entries(Take(HighSynergies(ss), 5)) }

  /** `mediumSynergies.slice(0, 3)` with their totals. */
  function Alternatives(ss: seq<SynergyPair>): seq<Entry> { Entries(Take(MediumSynergies(ss), 3)) }

  /** `totalCitations / (highSynergies.length * 2)`. */
  function CitationsPerProject(high: seq<SynergyPair>): Number {
    Div(TotalCitations(high) as real, (|high| * 2) as real)
  }

  /** The mean expected ROI of the high synergies. */
  function AverageRoi(high: seq<SynergyPair>): Number { Div(TotalRoi(high), |high| as real) }

  /** The error `generateInvestmentHighlights` (called at the end of the
      report) raises on an empty list: its `reduce` for the top
      performing domain has no initial value. */
  const ReduceOfEmpty := "TypeError: Reduce of empty array with no initial value"

  /** `generateInvestmentReport`: the high synergies' report, or the
      TypeError its highlights raise when no synergy is high. */
  function InvestmentReport(form: InvestmentForm, synergies: seq<SynergyPair>): Result<Report> {
    var high := HighSynergies(synergies);
    if high == [] then Err(ReduceOfEmpty)
    else
      var funding := TotalFunding(high);
      Ok(Report(
        form,
        funding, DivNumber(ParseFloat(form.budget), funding), CalculateRoi(form.budget, high),
        AverageRoi(high), Recommended(synergies), Alternatives(synergies),
        TotalCitations(high), CitationsPerProject(high),
        AssessRisk(form.riskTolerance, high), TimelineRecommendations(form.timeline),
        RiskMitigationStrategies(form.riskTolerance)))
  }

  /** At most five recommended synergies: the first high ones of the input,
      in its order, each scoring above 0.7 and carrying its own totals. */
  lemma RecommendedSpec(synergies: seq<SynergyPair>)
    ensures var r := Recommended(synergies); var high := HighSynergies(synergies);
      |r| == IntMin(5, |high|) &&
      forall k :: 0 <= k < |r| ==>
        r[k].pair == high[k] && r[k].pair in synergies && r[k].pair.score > 0.7 &&
        r[k].totalFunding == PairFunding(r[k].pair) && r[k].totalCitations == PairCitations(r[k].pair)
  {
    var high := HighSynergies(synergies);
    var r := Recommended(synergies);
    forall k | 0 <= k < |r| ensures r[k].pair in synergies && r[k].pair.score > 0.7 {
      FilterMembership(synergies, IsHigh, high[k]);
    }
  }

  /** At most three alternatives: the first medium ones, scoring above 0.4
      and at most 0.7. */
  lemma AlternativesSpec(synergies: seq<SynergyPair>)
    ensures var r := Alternatives(synergies); var medium := MediumSynergies(synergies);
      |r| == IntMin(3, |medium|) &&
      forall k :: 0 <= k < |r| ==>
        r[k].pair == medium[k] && r[k].pair in synergies && 0.4 < r[k].pair.score <= 0.7 &&
        r[k].totalFunding == PairFunding(r[k].pair) && r[k].totalCitations == PairCitations(r[k].pair)
  {
    var medium := MediumSynergies(synergies);
    var r := Alternatives(synergies);
    forall k | 0 <= k < |r| ensures r[k].pair in synergies && 0.4 < r[k].pair.score <= 0.7 {
      FilterMembership(synergies, IsMedium, medium[k]);
    }
  }

  /** No synergy is both recommended and an alternative. */
  lemma SelectionsDisjoint(synergies: seq<SynergyPair>)
    ensures var r, a := Recommended(synergies), Alternatives(synergies);
      forall i, j :: 0 <= i < |r| && 0 <= j < |a| ==> r[i].pair != a[j].pair
  {
    RecommendedSpec(synergies);
    AlternativesSpec(synergies);
  }

  /** The position of an input synergy among the recommended ones is the
      number of high synergies before it, so two high synergies within the
      first five keep their input order. */
  lemma RecommendedOrder(synergies: seq<SynergyPair>, i: nat, j: nat)
    requires i < j < |synergies| && IsHigh(synergies[i]) && IsHigh(synergies[j])
    requires |Filter(synergies[..j], IsHigh)| < 5
    ensures var r := Recommended(synergies);
      var pi, pj := |Filter(synergies[..i], IsHigh)|, |Filter(synergies[..j], IsHigh)|;
      pi < pj < |r| && r[pi].pair == synergies[i] && r[pj].pair == synergies[j]
  {
    FilterPosition(synergies, IsHigh, i);
    FilterPosition(synergies, IsHigh, j);
    FilterCountMonotone(synergies, IsHigh, i, j);
    RecommendedSpec(synergies);
  }

  /** The report raises exactly when no synergy scores above 0.7, and it
      then raises the empty `reduce`'s TypeError. Otherwise its funding
      total is that of the high synergies (missing values as 0), which is
      the funding of the high pairs summed over the whole list; the other
      report fields are computed from the high synergies and the form as
      above. */
  lemma ReportTotals(form: InvestmentForm, synergies: seq<SynergyPair>)
    ensures InvestmentReport(form, synergies).Err? <==> forall s :: s in synergies ==> !IsHigh(s)
    ensures InvestmentReport(form, synergies).Err? ==> InvestmentReport(form, synergies).message == ReduceOfEmpty
    ensures var res := InvestmentReport(form, synergies); var high := HighSynergies(synergies);
      res.Ok? ==>
      var r := res.value;
      r.form == form && |high| > 0 &&
      r.totalFundingRequired == FundingWhere(synergies, IsHigh) &&
      r.totalCitations == TotalCitations(high) &&
      r.recommended == Recommended(synergies) && r.alternative == Alternatives(synergies) &&
      r.estimatedRoi == CalculateRoi(form.budget, high) &&
      r.avgCitationsPerProject == CitationsPerProject(high) && r.avgRoi == AverageRoi(high) &&
      r.riskAssessment == AssessRisk(form.riskTolerance, high)
  {
    TotalFundingFilter(synergies, IsHigh);
    var high := HighSynergies(synergies);
    if high == [] {
      forall s | s in synergies ensures !IsHigh(s) {
        FilterMembership(synergies, IsHigh, s);
      }
    } else {
      FilterMembership(synergies, IsHigh, high[0]);
    }
  }

  /** Without high synergies the averages are NaN (0 / 0); otherwise the
      citation average counts two projects a pair. */
  lemma AveragesSpec(high: seq<SynergyPair>)
    ensures high == [] ==> CitationsPerProject(high) == NaN && AverageRoi(high) == NaN
    ensures high != [] ==>
      CitationsPerProject(high) == Finite(TotalCitations(high) as real / (2 * |high|) as real) &&
      AverageRoi(high) == Finite(TotalRoi(high) / |high| as real)
  {
    if high == [] {
      assert TotalCitations(high) == 0 && TotalRoi(high) == 0.0;
    }
  }

  /** A JavaScript value handed to `formatValue`. */
  datatype JsValue = Undefined | Null | Str(s: string) | Num(n: Number)

  /** `isNaN(value)`: the value converted to a number is NaN. */
  predicate IsNaNValue(v: JsValue) {
    match v
    case Undefined => true
    case Null => false
    case Str(s) => ToNumber(s).NaN?
    case Num(n) => n.NaN?
  }

  /** `${value}` for a value; `show` is the engine's decimal rendering of
      a finite number. */
  function ValueText(v: JsValue, show: real -> string): string {
    match v
    case Undefined => "undefined"
    case Null => "null"
    case Str(s) => s
    case Num(Finite(x)) => show(x)
    case Num(NaN) => "NaN"
    case Num(Infinity(neg)) => if neg then "-Infinity" else "Infinity"
  }

  /** `formatValue(value, suffix)`. */
  function FormatValue(v: JsValue, suffix: string, show: real -> string): Option<string> {
    if v == Undefined || v == Null || v == Str("") || v == Num(Finite(0.0)) || IsNaNValue(v) then None
    else Some(ValueText(v, show) + suffix)
  }

  /** A number gives nothing exactly when it is 0 or NaN; infinite ones are
      rendered like any other. */
  lemma FormatNumberSpec(x: real, suffix: string, show: real -> string)
    ensures FormatValue(Num(Finite(x)), suffix, show).None? <==> x == 0.0
    ensures x != 0.0 ==> FormatValue(Num(Finite(x)), suffix, show) == Some(show(x) + suffix)
    ensures FormatValue(Num(NaN), suffix, show).None? && FormatValue(Undefined, suffix, show).None?
    ensures FormatValue(Null, suffix, show).None?
    ensures FormatValue(Num(Infinity(false)), suffix, show) == Some("Infinity" + suffix)
  {
  }

  /** A rendered integer other than 0 keeps its suffix. */
  lemma FormatNumeralSpec(i: int, suffix: string, show: real -> string)
    requires i != 0
    ensures FormatValue(Str(IntToString(i)), suffix, show) == Some(IntToString(i) + suffix)
  {
    ToNumberRendered(i);
    NumericText(IntToString(i), suffix, show);
  }

  /** Non-empty text that converts to a number is kept with its suffix. */
  lemma NumericText(s: string, suffix: string, show: real -> string)
    requires s != "" && ToNumber(s).Finite?
    ensures FormatValue(Str(s), suffix, show) == Some(s + suffix)
  {
  }

  /** Text with words after the number ("12 months") gives nothing,
      because it does not convert to a number. */
  lemma FormatTrailingTextSpec(i: int, word: string, suffix: string, show: real -> string)
    requires word != [] && !IsDigit(word[0]) && word[0] != '.' && !IsJsSpace(word[|word| - 1])
    ensures FormatValue(Str(IntToString(i) + word), suffix, show).None?
  {
    ToNumberTrailingText(i, word);
  }

  /** Blank but non-empty text passes: it converts to 0, which is not NaN,
      and only the empty string is excluded. */
  lemma FormatBlankSpec(blank: string, suffix: string, show: real -> string)
    requires blank != [] && AllJsSpace(blank)
    ensures FormatValue(Str(blank), suffix, show) == Some(blank + suffix)
  {
    TrimEmptyIff(blank);
    assert ToNumber(blank) == Finite(0.0);
  }

  /** `getSimilarityColor`. */
  function SimilarityColor(score: real): string {
    if score >= 0.8 then "text-green-400"
    else if score >= 0.6 then "text-yellow-400"
    else if score >= 0.4 then "text-orange-400"
    else "text-red-400"
  }

  /** The colours from worst to best. */
  function ColorRank(color: string): int {
    if color == "text-green-400" then 3
    else if color == "text-yellow-400" then 2
    else if color == "text-orange-400" then 1
    else 0
  }

  /** A higher score never gets a worse colour, and green, yellow and orange
      start exactly at 0.8, 0.6 and 0.4. */
  lemma SimilarityColorMonotone(x: real, y: real)
    requires x <= y
    ensures ColorRank(SimilarityColor(x)) <= ColorRank(SimilarityColor(y))
    ensures ColorRank(SimilarityColor(x)) == (if x >= 0.8 then 3 else if x >= 0.6 then 2 else if x >= 0.4 then 1 else 0)
  {
  }
}
