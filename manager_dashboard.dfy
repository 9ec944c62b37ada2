/** The budget-allocation panel and the collaboration success estimate of
    the manager dashboard: four research domains share a total budget by
    percentage sliders, and the panel shows the allocated and remaining
    amounts, an expected ROI multiple, a risk label and a success
    probability. */
module ManagerDashboard {
  import opened Numeric
  import opened Wrappers

  /** The panel's state: the total budget and the four slider percentages
      (each slider runs from 0 to 50 in steps of 1, the budget from 1M to
      10M in steps of 250K). */
  datatype Allocation = Allocation(
    totalBudget: int, spaceBiology: int, molecularBiology: int, radiationBiology: int, biomechanics: int)

  /** The values the sliders can take. */
  predicate ValidAllocation(a: Allocation) {
    1000000 <= a.totalBudget <= 10000000 && a.totalBudget % 250000 == 0 &&
    0 <= a.spaceBiology <= 50 && 0 <= a.molecularBiology <= 50 &&
    0 <= a.radiationBiology <= 50 && 0 <= a.biomechanics <= 50
  }

  /** The initial state: $2.5M split 35 / 25 / 20 / 20. */
  const DefaultAllocation := Allocation(2500000, 35, 25, 20, 20)

  /** `calculateAllocationAmount`: the budget share for a percentage. */
  function AllocationAmount(budget: int, percentage: int): real {
    (budget * percentage) as real / 100.0
  }

  /** `calculateTotalAllocation`. */
  function TotalAllocation(a: Allocation): int {
    a.spaceBiology + a.molecularBiology + a.radiationBiology + a.biomechanics
  }

  /** The amount left over once the total percentage is allocated. */
  function RemainingBudget(a: Allocation): real {
    a.totalBudget as real - AllocationAmount(a.totalBudget, TotalAllocation(a))
  }

  /** The allocated amount is the sum of the four domain amounts, and it
      and the remainder add up to the budget; the remainder is negative
      exactly when more than 100% is allocated. */
  lemma AllocationSplit(a: Allocation)
    requires a.totalBudget > 0
    ensures AllocationAmount(a.totalBudget, TotalAllocation(a)) ==
      AllocationAmount(a.totalBudget, a.spaceBiology) + AllocationAmount(a.totalBudget, a.molecularBiology) +
      AllocationAmount(a.totalBudget, a.radiationBiology) + AllocationAmount(a.totalBudget, a.biomechanics)
    ensures AllocationAmount(a.totalBudget, TotalAllocation(a)) + RemainingBudget(a) == a.totalBudget as real
    ensures RemainingBudget(a) < 0.0 <==> TotalAllocation(a) > 100
    ensures RemainingBudget(a) == 0.0 <==> TotalAllocation(a) == 100
  {
    var b := a.totalBudget;
    var t := TotalAllocation(a);
    assert b * t == b * a.spaceBiology + b * a.molecularBiology + b * a.radiationBiology + b * a.biomechanics;
    assert RemainingBudget(a) == (b * (100 - t)) as real / 100.0;
    SignOfProduct(b, 100 - t);
  }

  lemma SignOfProduct(b: int, d: int)
    requires b > 0
    ensures b * d < 0 <==> d < 0
    ensures b * d == 0 <==> d == 0
  {
    if d < 0 {
      assert b * d == -(b * -d);
    }
  }

  /** `calculateExpectedROI`: 2.5x, 2x, 3x and 2.2x on the four shares. */
  function ExpectedRoi(a: Allocation): real {
    (a.spaceBiology as real * 2.5 + a.molecularBiology as real * 2.0 +
     a.radiationBiology as real * 3.0 + a.biomechanics as real * 2.2) / 100.0
  }

  /** With non-negative shares the multiple lies between two and three
      times the allocated fraction; the default split gives 2.415. */
  lemma ExpectedRoiBounds(a: Allocation)
    requires ValidAllocation(a)
    ensures 2.0 * TotalAllocation(a) as real / 100.0 <= ExpectedRoi(a) <= 3.0 * TotalAllocation(a) as real / 100.0
    ensures 0.0 <= ExpectedRoi(a) <= 6.0
    ensures ExpectedRoi(DefaultAllocation) == 2.415
  {
  }

  /** The risk badge: above 100% allocated is High, above 80% Medium. */
  function RiskLevel(total: int): string {
    if total > 100 then "High" else if total > 80 then "Medium" else "Low"
  }

  /** `Math.max(60, 100 - Math.abs(total - 100) * 2)`. */
  function SuccessProbability(total: int): int {
    IntMax(60, 100 - IntAbs(total - 100) * 2)
  }

  /** The probability lies in [60, 100], is 100 only for exactly 100%
      allocated, is the same at equal distances above and below 100, and
      falls as the total moves away from 100; outside 80..120 it is 60. */
  lemma SuccessProbabilitySpec(total: int, other: int)
    ensures 60 <= SuccessProbability(total) <= 100
    ensures SuccessProbability(total) == 100 <==> total == 100
    ensures SuccessProbability(100 + (total - 100)) == SuccessProbability(100 - (total - 100))
    ensures IntAbs(total - 100) <= IntAbs(other - 100) ==> SuccessProbability(other) <= SuccessProbability(total)
    ensures (total <= 80 || total >= 120) ==> SuccessProbability(total) == 60
  {
  }

  /** The risk label only rises with the total, and the success
      probability is at least 62 whenever the label is Medium (81..100) and
      at most 98 whenever it is High. */
  lemma RiskLevelSpec(total: int, other: int)
    requires total <= other
    ensures RiskRank(RiskLevel(total)) <= RiskRank(RiskLevel(other))
    ensures RiskLevel(total) == "Medium" ==> SuccessProbability(total) >= 62
    ensures RiskLevel(total) == "High" ==> SuccessProbability(total) <= 98
  {
  }

  function RiskRank(level: string): int {
    if level == "High" then 2 else if level == "Medium" then 1 else 0
  }

  /** The listed success rates for domain pairs, keyed "A-B". */
  const Combinations: seq<(string, int)> := [
    ("Space Biology-Molecular Biology", 95), ("Radiation Biology-Cell Biology", 87),
    ("Biomechanics-Tissue Engineering", 82), ("Molecular Biology-Genetics", 78),
    ("Space Biology-Radiation Biology", 75), ("Cell Biology-Immunology", 73),
    ("Molecular Biology-Cell Biology", 88), ("Space Biology-Biomechanics", 69),
    ("Radiation Biology-Molecular Biology", 84), ("Biomechanics-Cell Biology", 76),
    ("Tissue Engineering-Molecular Biology", 81), ("Genetics-Cell Biology", 89),
    ("Immunology-Molecular Biology", 77), ("Neuroscience-Cell Biology", 71),
    ("Biochemistry-Molecular Biology", 93)]

  /** The value listed for `key`, if any. */
  function LookupRate(table: seq<(string, int)>, key: string): (r: Option<int>)
    ensures r.Some? ==> exists k :: 0 <= k < |table| && table[k] == (key, r.value)
    ensures r.None? ==> forall k :: 0 <= k < |table| ==> table[k].0 != key
  {
    if table == [] then None
    else if table[0].0 == key then Some(table[0].1)
    else
      var r := LookupRate(table[1..], key);
      assert r.Some? ==> exists k :: 0 <= k < |table[1..]| && table[1..][k] == (key, r.value);
      assert r.None? ==> forall k :: 1 <= k < |table| ==> table[k].0 == table[1..][k - 1].0;
      r
  }

  /** `combinations[key] || …`: a listed value of 0 counts as missing. */
  function Truthy(r: Option<int>): Option<int> {
    if r == Some(0) then None else r
  }

  /** `calculateSuccessRate` over a table of rates: nothing for a missing or
      repeated domain, the rate listed for either order of the pair, else
      the random fallback `Math.floor(random * 30) + 60`. */
  function SuccessRateIn(table: seq<(string, int)>, domain1: string, domain2: string, random: real): Option<int> {
    if domain1 == "" || domain2 == "" || domain1 == domain2 then None
    else
      match Truthy(LookupRate(table, domain1 + "-" + domain2))
      case Some(v) => Some(v)
      case None =>
        match Truthy(LookupRate(table, domain2 + "-" + domain1))
        case Some(v) => Some(v)
        case None => Some((random * 30.0).Floor + 60)
  }

  function SuccessRate(domain1: string, domain2: string, random: real): Option<int> {
    SuccessRateIn(Combinations, domain1, domain2, random)
  }

  /** The estimate is absent exactly for an empty or repeated domain. */
  lemma SuccessRateAbsent(table: seq<(string, int)>, domain1: string, domain2: string, random: real)
    ensures SuccessRateIn(table, domain1, domain2, random).None? <==> domain1 == "" || domain2 == "" || domain1 == domain2
  {
  }

  /** A pair listed once, with a non-zero rate, gets that rate. */
  lemma SuccessRateListed(table: seq<(string, int)>, domain1: string, domain2: string, random: real, k: nat)
    requires domain1 != "" && domain2 != "" && domain1 != domain2
    requires k < |table| && table[k].0 == domain1 + "-" + domain2 && table[k].1 != 0
    requires forall m :: 0 <= m < |table| && table[m].0 == table[k].0 ==> m == k
    ensures SuccessRateIn(table, domain1, domain2, random) == Some(table[k].1)
  {
    var r := LookupRate(table, domain1 + "-" + domain2);
    assert r.Some?;
    var m :| 0 <= m < |table| && table[m] == (domain1 + "-" + domain2, r.value);
    assert m == k;
  }

  /** When the table never lists a pair in both orders, the estimate does
      not depend on the order of the two domains. */
  lemma SuccessRateSymmetric(table: seq<(string, int)>, domain1: string, domain2: string, random: real)
    requires forall i, j :: 0 <= i < |table| && 0 <= j < |table| ==>
      table[i].0 != domain1 + "-" + domain2 || table[j].0 != domain2 + "-" + domain1
    ensures SuccessRateIn(table, domain1, domain2, random) == SuccessRateIn(table, domain2, domain1, random)
  {
    var r1 := LookupRate(table, domain1 + "-" + domain2);
    var r2 := LookupRate(table, domain2 + "-" + domain1);
    if r1.Some? && r2.Some? {
      assert false;
    }
  }

  /** With a random draw in [0, 1) the estimate is between 60 and 95: the
      fallback covers 60..89, the listed rates 69..95. */
  lemma SuccessRateRange(domain1: string, domain2: string, random: real)
    requires 0.0 <= random < 1.0
    ensures var r := SuccessRate(domain1, domain2, random); r.Some? ==> 60 <= r.value <= 95
  {
    forall k | 0 <= k < |Combinations| ensures 69 <= Combinations[k].1 <= 95 {
    }
    var f := (random * 30.0).Floor;
    assert 0.0 <= random * 30.0 < 30.0;
    assert 0 <= f < 30;
  }
}
