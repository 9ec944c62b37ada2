/** The mission planner page's offline analysis: a feasibility score from
    the destination, crew size and duration, the health risks, the
    consumables, the exercise requirement, the recommendations and the
    optional real-time snapshot.  The time stamp is passed in. */
module MissionPlanner {
  import opened Numeric
  import opened Text
  import opened Wrappers

  /** The planner form (`MissionPlannerRequest`). */
  datatype MissionRequest = MissionRequest(
    destination: string, crewSize: int, durationDays: int, payloadCapacity: string, useRealtimeData: bool)

  /** A health risk; only the Mars radiation risk carries a dose. */
  datatype Risk = Risk(risk: string, severity: string, dose: Option<string>, notes: string)

  datatype Resources = Resources(food: string, water: string, oxygen: string)

  datatype CrewHealth = CrewHealth(exercise: string, medicalSupport: string)

  /** The fixed real-time figures the page shows when asked for them. */
  datatype RealtimeSnapshot = RealtimeSnapshot(
    issCrewSize: int, issMissionDuration: int, exerciseHours: real, healthStatus: string,
    radiationLevel: real, solarActivity: string, spaceWeather: string,
    boneLossStudy: string, muscleAtrophyRate: string, psychologicalStressIndex: string,
    foodPerPersonPerDay: real, waterPerPersonPerDay: real, oxygenPerPersonPerDay: real)

  /** `MissionPlannerResponse`. */
  datatype MissionAnalysis = MissionAnalysis(
    feasibilityScore: int, risks: seq<Risk>, resources: Resources, crewHealth: CrewHealth,
    recommendations: seq<string>, realtimeData: Option<RealtimeSnapshot>, dataTimestamp: string)

  const SampleRealtime := RealtimeSnapshot(
    7, 180, 2.5, "Good", 0.5, "Low", "Quiet",
    "ARED exercise reduces bone loss by 70%", "2-3% per month in microgravity",
    "Moderate - within acceptable limits", 1.8, 3.5, 0.84)

  /** `destinationScores[destination] || 70`. */
  function DestinationBase(destination: string): int {
    if destination == "moon" then 85
    else if destination == "mars" then 65
    else if destination == "asteroid" then 55
    else if destination == "space station" then 90
    else 70
  }

  /** A crew outside 2..8 costs 15 points, one of 2..6 gains 10. */
  function CrewAdjustment(crewSize: int): int {
    if crewSize < 2 || crewSize > 8 then -15 else if crewSize <= 6 then 10 else 0
  }

  /** Over 500 days costs 20 points, under 100 days gains 15. */
  function DurationAdjustment(durationDays: int): int {
    if durationDays > 500 then -20 else if durationDays < 100 then 15 else 0
  }

  /** The feasibility score the analysis reports. */
  function Feasibility(r: MissionRequest): int {
    IntMax(0, IntMin(100, DestinationBase(r.destination) + CrewAdjustment(r.crewSize) + DurationAdjustment(r.durationDays)))
  }

  /** The score is between 20 and 100, so the lower clamp never acts; it
      is the sum of the three parts capped at 100, a longer mission or a
      crew leaving the 2..6 range never scores higher, and a Mars mission
      never scores above 90. */
  lemma FeasibilitySpec(r: MissionRequest, longer: int)
    ensures 20 <= Feasibility(r) <= 100
    ensures Feasibility(r) ==
      IntMin(100, DestinationBase(r.destination) + CrewAdjustment(r.crewSize) + DurationAdjustment(r.durationDays))
    ensures longer >= r.durationDays ==> Feasibility(r.(durationDays := longer)) <= Feasibility(r)
    ensures r.destination == "mars" ==> Feasibility(r) <= 90
    ensures 2 <= r.crewSize <= 6 ==> Feasibility(r.(crewSize := 7)) < Feasibility(r) || Feasibility(r) == 100
  {
  }

  /** `Math.round(0.5 + duration_days * 0.001)`. */
  function RadiationDose(durationDays: int): int {
    JsRound(0.5 + durationDays as real * 0.001)
  }

  /** The dose is one millisievert plus one per full thousand days. */
  lemma RadiationDoseSpec(durationDays: nat)
    ensures RadiationDose(durationDays) == 1 + durationDays / 1000
  {
    var q := durationDays / 1000;
    var x := 0.5 + durationDays as real * 0.001;
    assert durationDays == 1000 * q + durationDays % 1000;
    assert x + 0.5 == (1 + q) as real + (durationDays % 1000) as real / 1000.0;
    assert (1 + q) as real <= x + 0.5 < (2 + q) as real;
  }

  /** The radiation risk of a Mars mission, High past 500 days. */
  function RadiationExposure(durationDays: int): Risk {
    Risk("Radiation Exposure", if durationDays > 500 then "High" else "Medium",
         Some(DoseText(durationDays)), "Mars missions face significant cosmic radiation exposure")
  }

  /** `${Math.round(0.5 + duration_days * 0.001)} mSv`. */
  function DoseText(durationDays: int): string { IntToString(RadiationDose(durationDays)) + " mSv" }

  const PsychologicalIsolation := Risk("Psychological Isolation", "Medium", None, "Extended isolation may impact crew mental health")
  const LunarDust := Risk("Lunar Dust Exposure", "Medium", None, "Lunar regolith can cause respiratory issues")
  const SolarEvents := Risk("Radiation from Solar Events", "Low", None, "Moon missions face periodic solar particle events")
  const MuscleAtrophy := Risk("Muscle Atrophy", "High", None, "Extended microgravity causes significant muscle loss")
  const BoneDensityLoss := Risk("Bone Density Loss", "High", None, "Bone loss accelerates in microgravity environments")

  /** The risks of a destination. */
  function DestinationRisks(r: MissionRequest): seq<Risk> {
    if r.destination == "mars" then [RadiationExposure(r.durationDays), PsychologicalIsolation]
    else if r.destination == "moon" then [LunarDust, SolarEvents]
    else []
  }

  /** The two risks of a mission over 300 days. */
  function DurationRisks(durationDays: int): seq<Risk> {
    if durationDays > 300 then [MuscleAtrophy, BoneDensityLoss] else []
  }

  /** The risk list: those of the destination, then the two long-duration
      risks for missions over 300 days. */
  function Risks(r: MissionRequest): seq<Risk> {
    DestinationRisks(r) + DurationRisks(r.durationDays)
  }

  /** Two risks for Mars and the Moon, none elsewhere, and two more past
      300 days, which come last. */
  lemma RisksLength(r: MissionRequest)
    ensures |Risks(r)| == (if r.destination == "mars" || r.destination == "moon" then 2 else 0) +
      (if r.durationDays > 300 then 2 else 0)
    ensures r.durationDays > 300 ==> Risks(r)[|Risks(r)| - 2..] == [MuscleAtrophy, BoneDensityLoss]
  {
    if r.durationDays > 300 {
      assert Risks(r)[|Risks(r)| - 2..] == DurationRisks(r.durationDays);
    }
  }

  /** A risk is High only past 300 days, and only the Mars radiation risk,
      first in the list, carries a dose. */
  lemma RisksSeverity(r: MissionRequest)
    ensures forall k :: 0 <= k < |Risks(r)| && Risks(r)[k].severity == "High" ==> r.durationDays > 300
    ensures forall k :: 0 <= k < |Risks(r)| && Risks(r)[k].dose.Some? ==>
      r.destination == "mars" && k == 0 && Risks(r)[k] == RadiationExposure(r.durationDays)
  {
    var d, l := DestinationRisks(r), DurationRisks(r.durationDays);
    assert "Medium" != "High" && "Low" != "High";
    forall k | 0 <= k < |Risks(r)|
      ensures (Risks(r)[k].severity == "High" ==> r.durationDays > 300) &&
        (Risks(r)[k].dose.Some? ==> r.destination == "mars" && k == 0 && Risks(r)[k] == RadiationExposure(r.durationDays))
    {
      if k < |d| {
        assert Risks(r)[k] == d[k];
      } else {
        assert Risks(r)[k] == l[k - |d|];
      }
    }
  }

  /** The daily need per person, in kg. */
  const FoodRate := 1.8
  const WaterRate := 3.5
  const OxygenRate := 0.84

  /** `crewDays * rate` for a number of person-days. */
  function Need(crewDays: int, rate: real): real { crewDays as real * rate }

  /** The rounded total for a rate, and its text. */
  function Total(r: MissionRequest, rate: real): int { JsRound(Need(r.crewSize * r.durationDays, rate)) }

  function ResourceText(total: int, rate: string): string {
    IntToString(total) + " kg total (" + rate + " kg/person/day)"
  }

  function ResourceNeeds(r: MissionRequest): Resources {
    Resources(
      ResourceText(Total(r, FoodRate), "1.8"),
      ResourceText(Total(r, WaterRate), "3.5"),
      ResourceText(Total(r, OxygenRate), "0.84"))
  }

  /** Each total is within half a kilogram of person-days times the rate,
      and for a non-negative mission oxygen never exceeds food, nor food
      water. */
  lemma ResourceTotalsSpec(r: MissionRequest)
    requires r.crewSize >= 0 && r.durationDays >= 0
    ensures var n := (r.crewSize * r.durationDays) as real;
      n * 1.8 - 0.5 < Total(r, FoodRate) as real <= n * 1.8 + 0.5 &&
      n * 3.5 - 0.5 < Total(r, WaterRate) as real <= n * 3.5 + 0.5 &&
      n * 0.84 - 0.5 < Total(r, OxygenRate) as real <= n * 0.84 + 0.5
    ensures 0 <= Total(r, OxygenRate) <= Total(r, FoodRate) <= Total(r, WaterRate)
  {
    var n := r.crewSize * r.durationDays;
    assert n >= 0;
    NeedOrdered(n);
    JsRoundMonotone(Need(n, OxygenRate), Need(n, FoodRate));
    JsRoundMonotone(Need(n, FoodRate), Need(n, WaterRate));
    JsRoundMonotone(0.0, Need(n, OxygenRate));
  }

  lemma NeedOrdered(n: int)
    requires n >= 0
    ensures 0.0 <= Need(n, OxygenRate) <= Need(n, FoodRate) <= Need(n, WaterRate)
  {
  }

  /** `Math.round(duration_days / 30 * 2)`: hours of resistive exercise,
      the mission length in fortnights, rounded. */
  function ExerciseHours(durationDays: int): int { JsRound(durationDays as real / 30.0 * 2.0) }

  lemma ExerciseHoursSpec(durationDays: int)
    ensures durationDays as real / 15.0 - 0.5 < ExerciseHours(durationDays) as real <= durationDays as real / 15.0 + 0.5
    ensures durationDays % 15 == 0 ==> ExerciseHours(durationDays) == durationDays / 15
  {
    var x := durationDays as real / 30.0 * 2.0;
    assert x == durationDays as real / 15.0;
    if durationDays % 15 == 0 {
      var q := durationDays / 15;
      assert durationDays == 15 * q;
      assert x == q as real;
    }
  }

  function CrewHealthNeeds(r: MissionRequest): CrewHealth {
    CrewHealth(
      "Minimum " + IntToString(ExerciseHours(r.durationDays)) + " hours/day of resistive exercise required",
      "Full medical kit, telemedicine capabilities, emergency protocols")
  }

  const BaseRecommendations: seq<string> := [
    "Implement comprehensive exercise protocols to mitigate muscle atrophy",
    "Deploy advanced radiation shielding systems for crew protection",
    "Establish psychological support systems for long-duration missions",
    "Design redundant life support systems for mission safety",
    "Conduct extensive pre-mission training and simulations"]

  const RotationRecommendation := "Consider crew rotation schedules for extended missions"
  const ConflictRecommendation := "Implement conflict resolution protocols for larger crews"

  /** The five standard recommendations, then crew rotation past 500 days
      and conflict resolution for crews over six. */
  function Recommendations(r: MissionRequest): seq<string> {
    BaseRecommendations + (if r.durationDays > 500 then [RotationRecommendation] else [])
      + (if r.crewSize > 6 then [ConflictRecommendation] else [])
  }

  /** Between five and seven recommendations: the standard five, then
      crew rotation exactly past 500 days and conflict resolution exactly
      for crews over six. */
  lemma RecommendationsSpec(r: MissionRequest)
    ensures var rec := Recommendations(r);
      |rec| == 5 + (if r.durationDays > 500 then 1 else 0) + (if r.crewSize > 6 then 1 else 0) &&
      rec[..5] == BaseRecommendations &&
      rec[5..] == (if r.durationDays > 500 then [RotationRecommendation] else []) +
        (if r.crewSize > 6 then [ConflictRecommendation] else [])
  {
    var e1 := if r.durationDays > 500 then [RotationRecommendation] else [];
    var e2 := if r.crewSize > 6 then [ConflictRecommendation] else [];
    AppendAssocStrings(BaseRecommendations, e1, e2);
  }

  lemma AppendAssocStrings(a: seq<string>, b: seq<string>, c: seq<string>)
    ensures a + b + c == a + (b + c) && (a + (b + c))[..|a|] == a && (a + (b + c))[|a|..] == b + c
  {
  }

  /** `generateMockMissionAnalysis`, step by step as the page does it. */
  method GenerateMockMissionAnalysis(request: MissionRequest, timestamp: string) returns (analysis: MissionAnalysis)
    ensures analysis.feasibilityScore == Feasibility(request)
    ensures analysis.risks == Risks(request)
    ensures analysis.resources == ResourceNeeds(request)
    ensures analysis.crewHealth == CrewHealthNeeds(request)
    ensures analysis.recommendations == Recommendations(request)
    ensures analysis.realtimeData.Some? <==> request.useRealtimeData
    ensures analysis.realtimeData.Some? ==> analysis.realtimeData.value == SampleRealtime
    ensures analysis.dataTimestamp == timestamp
  {
    var baseScore := ScoreMission(request);
    var risks := CollectRisks(request);
    var recommendations := CollectRecommendations(request);
    var realtime: Option<RealtimeSnapshot> := None;
    if request.useRealtimeData {
      realtime := Some(SampleRealtime);
    }
    analysis := MissionAnalysis(
      IntMax(0, IntMin(100, baseScore)), risks, ResourceNeeds(request), CrewHealthNeeds(request),
      recommendations, realtime, timestamp);
  }

  /** The updates of `baseScore`, before the final clamp. */
  method ScoreMission(request: MissionRequest) returns (baseScore: int)
    ensures IntMax(0, IntMin(100, baseScore)) == Feasibility(request)
  {
    baseScore := DestinationBase(request.destination);
    if request.crewSize < 2 || request.crewSize > 8 {
      baseScore := baseScore - 15;
    } else if request.crewSize >= 2 && request.crewSize <= 6 {
      baseScore := baseScore + 10;
    }
    assert baseScore == DestinationBase(request.destination) + CrewAdjustment(request.crewSize);
    if request.durationDays > 500 {
      baseScore := baseScore - 20;
    } else if request.durationDays < 100 {
      baseScore := baseScore + 15;
    }
  }

  /** The pushes onto `risks`. */
  method CollectRisks(request: MissionRequest) returns (risks: seq<Risk>)
    ensures risks == Risks(request)
  {
    risks := [];
    if request.destination == "mars" {
      risks := risks + [RadiationExposure(request.durationDays)];
      risks := risks + [PsychologicalIsolation];
    } else if request.destination == "moon" {
      risks := risks + [LunarDust];
      risks := risks + [SolarEvents];
    }
    assert risks == DestinationRisks(request);
    if request.durationDays > 300 {
      risks := risks + [MuscleAtrophy];
      risks := risks + [BoneDensityLoss];
    }
    assert risks == DestinationRisks(request) + DurationRisks(request.durationDays);
  }

  /** The pushes onto `recommendations`. */
  method CollectRecommendations(request: MissionRequest) returns (recommendations: seq<string>)
    ensures recommendations == Recommendations(request)
  {
    recommendations := BaseRecommendations;
    if request.durationDays > 500 {
      recommendations := recommendations + [RotationRecommendation];
    }
    if request.crewSize > 6 {
      recommendations := recommendations + [ConflictRecommendation];
    }
  }
}
