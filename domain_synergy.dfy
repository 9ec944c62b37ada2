/** The domain-pair synergy table of `DynamicDataProcessor`
    (data_processor.py): pair scores, shared resources, benefits and the
    cross-domain synergy report over a list of domain labels. */
module DomainSynergy {
  import opened Wrappers
  import opened Text
  import opened Numeric
  import opened Sorting

  // ---------------------------------------------------------------------
  // _calculate_domain_synergy

  /** The base synergy scores of `_calculate_domain_synergy`. */
  const SynergyTable: seq<(string, string, int)> := [
    ("Plants", "Microbes", 85),
    ("Human Physiology", "Psychology", 90),
    ("Radiation", "Human Physiology", 75),
    ("Radiation", "Plants", 70),
    ("Microbes", "Human Physiology", 80),
    ("Plants", "Human Physiology", 65),
    ("Psychology", "Microbes", 60),
    ("Radiation", "Psychology", 55),
    ("Plants", "Psychology", 50),
    ("Microbes", "Radiation", 75)
  ]

  /** The score listed for the ordered pair (a, b), if any. */
  function Lookup(t: seq<(string, string, int)>, a: string, b: string): (r: Option<int>)
    ensures r.Some? <==> exists k :: 0 <= k < |t| && t[k].0 == a && t[k].1 == b
    ensures r.Some? ==> exists k :: 0 <= k < |t| && t[k] == (a, b, r.value)
  {
    if t == [] then None
    else if t[0].0 == a && t[0].1 == b then Some(t[0].2)
    else
      var r := Lookup(t[1..], a, b);
      assert forall k :: 0 <= k < |t[1..]| ==> t[1..][k] == t[k + 1];
      r
  }

  /** The score of two domains the table does not list. */
  function DefaultSynergy(a: string, b: string): int {
    if Contains(a, "Human") && Contains(b, "Human") then 70
    else if Contains(a, "Plant") && Contains(b, "Plant") then 65
    else 55
  }

  /** `_calculate_domain_synergy`: the table value in either order, else
      the default rule. */
  function DomainSynergy(a: string, b: string): int {
    match Lookup(SynergyTable, a, b)
    case Some(v) => v
    case None =>
      match Lookup(SynergyTable, b, a)
      case Some(v) => v
      case None => DefaultSynergy(a, b)
  }

  /** No pair is listed in both orders. */
  lemma TableHasNoReversedPairs()
    ensures forall i, j :: 0 <= i < |SynergyTable| && 0 <= j < |SynergyTable| ==>
      !(SynergyTable[i].0 == SynergyTable[j].1 && SynergyTable[i].1 == SynergyTable[j].0)
  {
  }

  /** The score does not depend on the order of the two domains. */
  lemma DomainSynergySymmetric(a: string, b: string)
    ensures DomainSynergy(a, b) == DomainSynergy(b, a)
  {
    TableHasNoReversedPairs();
  }

  /** A listed pair gets its table score in either order; an unlisted pair
      gets 70 when both names contain "Human", else 65 when both contain
      "Plant", else 55. */
  lemma DomainSynergyCases(a: string, b: string)
    ensures forall k :: 0 <= k < |SynergyTable| && SynergyTable[k].0 == a && SynergyTable[k].1 == b ==>
      DomainSynergy(a, b) == SynergyTable[k].2 && DomainSynergy(b, a) == SynergyTable[k].2
    ensures (forall k :: 0 <= k < |SynergyTable| ==>
              !(SynergyTable[k].0 == a && SynergyTable[k].1 == b) && !(SynergyTable[k].0 == b && SynergyTable[k].1 == a)) ==>
      DomainSynergy(a, b) == DefaultSynergy(a, b)
  {
    DomainSynergySymmetric(a, b);
    forall k | 0 <= k < |SynergyTable| && SynergyTable[k].0 == a && SynergyTable[k].1 == b
      ensures DomainSynergy(a, b) == SynergyTable[k].2
    {
      var v := Lookup(SynergyTable, a, b).value;
      var i :| 0 <= i < |SynergyTable| && SynergyTable[i] == (a, b, v);
      TableKeysDistinct(i, k);
    }
  }

  /** Each ordered pair is listed at most once. */
  lemma TableKeysDistinct(i: nat, k: nat)
    requires i < |SynergyTable| && k < |SynergyTable|
    requires SynergyTable[i].0 == SynergyTable[k].0 && SynergyTable[i].1 == SynergyTable[k].1
    ensures i == k
  {
  }

  /** Every score lies between 50 and 90. */
  lemma DomainSynergyRange(a: string, b: string)
    ensures 50 <= DomainSynergy(a, b) <= 90
  {
    TableRange();
    LookupRange(SynergyTable, a, b, 50, 90);
    LookupRange(SynergyTable, b, a, 50, 90);
  }

  lemma TableRange()
    ensures forall k :: 0 <= k < |SynergyTable| ==> 50 <= SynergyTable[k].2 <= 90
  {
  }

  /** A value found in a table lies within the bounds of all its values. */
  lemma LookupRange(t: seq<(string, string, int)>, a: string, b: string, lo: int, hi: int)
    requires forall k :: 0 <= k < |t| ==> lo <= t[k].2 <= hi
    ensures Lookup(t, a, b).Some? ==> lo <= Lookup(t, a, b).value <= hi
  {
    if Lookup(t, a, b).Some? {
      var k :| 0 <= k < |t| && t[k] == (a, b, Lookup(t, a, b).value);
    }
  }

  // ---------------------------------------------------------------------
  // _get_shared_resources and _get_synergy_benefits

  const BaseResources: seq<string> := ["Research Teams", "Laboratory Equipment", "Data Analysis Tools"]

  predicate Either(a: string, b: string, w: string) { Contains(a, w) || Contains(b, w) }

  /** The first resource the extensions add, if any. */
  function ExtraResource(a: string, b: string): Option<string> {
    if Either(a, b, "Human") then Some("Clinical Facilities")
    else if Either(a, b, "Plant") then Some("Greenhouse Facilities")
    else if Either(a, b, "Microbe") then Some("Microbiology Labs")
    else if Either(a, b, "Radiation") then Some("Radiation Facilities")
    else None
  }

  /** The shared resources: the three base resources, and then the first
      extension resource when one applies. */
  function SharedResourceList(a: string, b: string): (r: seq<string>)
    ensures 3 <= |r| <= 4 && r[..3] == BaseResources
    ensures |r| == 4 <==> Either(a, b, "Human") || Either(a, b, "Plant") || Either(a, b, "Microbe") || Either(a, b, "Radiation")
  {
    match ExtraResource(a, b)
    case Some(x) => BaseResources + [x]
    case None => BaseResources
  }

  /** `_get_shared_resources`: the extensions, then `[:4]`. */
  method SharedResources(a: string, b: string) returns (r: seq<string>)
    ensures r == SharedResourceList(a, b)
  {
    var resources := BaseResources;
    if Either(a, b, "Human") {
      resources := resources + ["Clinical Facilities", "Medical Equipment"];
    }
    if Either(a, b, "Plant") {
      resources := resources + ["Greenhouse Facilities", "Growth Chambers"];
    }
    if Either(a, b, "Microbe") {
      resources := resources + ["Microbiology Labs", "Incubators"];
    }
    if Either(a, b, "Radiation") {
      resources := resources + ["Radiation Facilities", "Dosimetry Equipment"];
    }
    assert |resources| >= 3 && resources[..3] == BaseResources;
    assert ExtraResource(a, b).Some? <==> |resources| > 3;
    assert |resources| > 3 ==> resources[3] == ExtraResource(a, b).value;
    r := resources[..IntMin(4, |resources|)];
    assert |r| > 3 ==> r == resources[..3] + [resources[3]];
  }

  const BaseBenefits: seq<string> := ["Shared experimental protocols", "Combined data analysis", "Reduced operational costs"]

  /** `_get_synergy_benefits`: the conditional appends land after the cut
      at three, so every pair gets the same three benefits. */
  method SynergyBenefits(a: string, b: string) returns (r: seq<string>)
    ensures r == BaseBenefits
  {
    var benefits := ["Shared experimental protocols", "Combined data analysis",
                     "Reduced operational costs", "Enhanced research outcomes"];
    if Contains(a, "Human") && Contains(b, "Human") {
      benefits := benefits + ["Integrated health monitoring"];
    }
    if Contains(a, "Plant") && Contains(b, "Plant") {
      benefits := benefits + ["Sustainable agriculture solutions"];
    }
    r := benefits[..3];
  }

  // ---------------------------------------------------------------------
  // get_cross_domain_synergy over a list of domains

  datatype DomainPair = DomainPair(domain1: string, domain2: string, score: int,
                                   sharedResources: seq<string>, benefits: seq<string>,
                                   recommendedInvestment: int)

  datatype InvestmentRec = InvestmentRec(title: string, description: string, amount: int,
                                         expectedRoi: int, timeline: string, priority: string)

  datatype SynergyReport = SynergyReport(totalSynergies: nat, highPotential: nat,
                                         collaborationOpportunities: nat, avgScore: int,
                                         top: seq<DomainPair>, recommendations: seq<InvestmentRec>)

  /** The record the inner loop appends for two domains. */
  function MakePair(a: string, b: string): (p: DomainPair)
    ensures p.domain1 == a && p.domain2 == b && p.score == DomainSynergy(a, b)
    ensures p.recommendedInvestment == 50000 + 3000 * p.score
    ensures p.sharedResources == SharedResourceList(a, b) && p.benefits == BaseBenefits
  {
    var s := DomainSynergy(a, b);
    DomainPair(a, b, s, SharedResourceList(a, b), BaseBenefits, 50000 + s * 3000)
  }

  /** The domain pairs of row i of the nested loops, for columns below j. */
  function RowPairs(ds: seq<string>, i: nat, j: nat): (r: seq<(string, string)>)
    requires i < |ds| && j <= |ds|
    ensures |r| == if j <= i + 1 then 0 else j - i - 1
    decreases j
  {
    if j <= i + 1 then [] else RowPairs(ds, i, j - 1) + [(ds[i], ds[j - 1])]
  }

  /** The domain pairs of the rows before i. */
  function PairsBefore(ds: seq<string>, i: nat): seq<(string, string)>
    requires i <= |ds|
  {
    if i == 0 then [] else PairsBefore(ds, i - 1) + RowPairs(ds, i - 1, |ds|)
  }

  /** The records of a list of domain pairs. */
  function Records(ps: seq<(string, string)>): (r: seq<DomainPair>)
    ensures |r| == |ps|
  {
    if ps == [] then [] else [MakePair(ps[0].0, ps[0].1)] + Records(ps[1..])
  }

  lemma {:induction false} RecordsConcat(a: seq<(string, string)>, b: seq<(string, string)>)
    ensures Records(a + b) == Records(a) + Records(b)
  {
    if a == [] {
      assert a + b == b;
    } else {
      assert (a + b)[1..] == a[1..] + b;
      RecordsConcat(a[1..], b);
      AppendAssoc([MakePair(a[0].0, a[0].1)], Records(a[1..]), Records(b));
    }
  }

  /** All unordered pairs of distinct positions, in loop order. */
  function AllDomainPairs(ds: seq<string>): seq<DomainPair> {
    Records(PairsBefore(ds, |ds|))
  }

  /** The rows before i hold i(2n - i - 1)/2 pairs of n domains. */
  lemma {:induction false} PairsBeforeCount(ds: seq<string>, i: nat)
    requires i <= |ds|
    ensures 2 * |PairsBefore(ds, i)| == i * (2 * |ds| - i - 1)
  {
    if i > 0 {
      PairsBeforeCount(ds, i - 1);
      assert |PairsBefore(ds, i)| == |PairsBefore(ds, i - 1)| + (|ds| - i);
      TriangleStep(|ds|, i, |PairsBefore(ds, i - 1)|);
    }
  }

  lemma TriangleStep(n: int, i: int, c: int)
    requires 2 * c == (i - 1) * (2 * n - (i - 1) - 1)
    ensures 2 * (c + (n - i)) == i * (2 * n - i - 1)
  {
    var q := i * (2 * n - i);
    assert (i - 1) * (2 * n - i) == q - (2 * n - i);
    assert i * (2 * n - i - 1) == q - i;
  }

  /** k domains give k(k-1)/2 pairs. */
  lemma AllDomainPairsCount(ds: seq<string>)
    ensures 2 * |AllDomainPairs(ds)| == |ds| * (|ds| - 1)
  {
    PairsBeforeCount(ds, |ds|);
  }

  /** The records with a score above `bound`. */
  function CountAbove(ps: seq<DomainPair>, bound: int): (n: nat)
    ensures n <= |ps|
  {
    if ps == [] then 0 else (if ps[0].score > bound then 1 else 0) + CountAbove(ps[1..], bound)
  }

  lemma {:induction false} CountAboveMonotone(ps: seq<DomainPair>, lo: int, hi: int)
    requires lo <= hi
    ensures CountAbove(ps, hi) <= CountAbove(ps, lo)
  {
    if ps != [] {
      CountAboveMonotone(ps[1..], lo, hi);
    }
  }

  lemma {:induction false} CountAboveAppend(a: seq<DomainPair>, b: seq<DomainPair>, bound: int)
    ensures CountAbove(a + b, bound) == CountAbove(a, bound) + CountAbove(b, bound)
  {
    if a == [] {
      assert a + b == b;
    } else {
      CountAboveAppend(a[1..], b, bound);
      assert (a + b)[0] == a[0];
      assert (a + b)[1..] == a[1..] + b;
    }
  }

  /** The count does not depend on the order of the records. */
  lemma {:induction false} CountAbovePermutation(a: seq<DomainPair>, b: seq<DomainPair>, bound: int)
    requires multiset(a) == multiset(b)
    ensures CountAbove(a, bound) == CountAbove(b, bound)
    decreases |a|
  {
    if a == [] {
      assert |b| == |multiset(b)| == 0;
    } else {
      var x := a[0];
      assert x in multiset(b);
      var k :| 0 <= k < |b| && b[k] == x;
      var rest := b[..k] + b[k + 1..];
      RemoveMatching(a, b, k);
      assert a == [x] + a[1..];
      assert b == b[..k] + [x] + b[k + 1..];
      CountAbovePermutation(a[1..], rest, bound);
      CountAboveAppend(b[..k] + [x], b[k + 1..], bound);
      CountAboveAppend(b[..k], [x], bound);
      CountAboveAppend(b[..k], b[k + 1..], bound);
    }
  }

  function ScoreSum(ps: seq<DomainPair>): int {
    if ps == [] then 0 else ps[0].score + ScoreSum(ps[1..])
  }

  function InvestmentSum(ps: seq<DomainPair>): int {
    if ps == [] then 0 else ps[0].recommendedInvestment + InvestmentSum(ps[1..])
  }

  function PairScoreGe(a: DomainPair, b: DomainPair): bool { a.score >= b.score }

  /** `_generate_synergy_investment_recommendations` of the top three. */
  function SynergyInvestments(top: seq<DomainPair>): (r: seq<InvestmentRec>)
    ensures |r| == if top == [] then 0 else 1
    ensures top != [] ==> r[0].amount == InvestmentSum(Take(top, 2))
  {
    if top == [] then []
    else [InvestmentRec("Cross-Domain Collaboration Initiative",
                        "Establish formal collaboration framework between " + top[0].domain1 + " and " + top[0].domain2,
                        InvestmentSum(Take(top, 2)), 145, "12 months", "High")]
  }

  /** The report once the records are sorted by score. */
  function ReportOf(ps: seq<DomainPair>, sorted: seq<DomainPair>): SynergyReport {
    SynergyReport(|ps|, CountAbove(ps, 70), CountAbove(sorted, 60),
                  if sorted == [] then 0 else RoundHalfEven(ScoreSum(sorted) as real / |sorted| as real),
                  Take(sorted, 5), SynergyInvestments(Take(sorted, 3)))
  }

  /** `get_cross_domain_synergy` after the domains are chosen. */
  function SynergyReportFor(ds: seq<string>): SynergyReport {
    var ps := AllDomainPairs(ds);
    ReportOf(ps, SortBy(ps, PairScoreGe))
  }

  /** The synergy report over k domains counts k(k-1)/2 pairs, never more
      highly rated ones than collaboration opportunities, and returns at
      most five pairs, highest score first, each priced at 50000 + 3000
      times its score. */
  lemma SynergyReportSpec(ds: seq<string>)
    ensures var r := SynergyReportFor(ds);
      2 * r.totalSynergies == |ds| * (|ds| - 1) &&
      r.highPotential <= r.collaborationOpportunities <= r.totalSynergies &&
      |r.top| == IntMin(5, r.totalSynergies) && SortedBy(r.top, PairScoreGe) && Priced(r.top) &&
      (|r.recommendations| == 1 <==> r.totalSynergies > 0)
  {
    var ps := AllDomainPairs(ds);
    var sorted := SortBy(ps, PairScoreGe);
    AllDomainPairsCount(ds);
    assert TotalPreorder(PairScoreGe);
    SortBySorted(ps, PairScoreGe);
    RecordsPriced(PairsBefore(ds, |ds|));
    ReportOfSpec(ps, sorted);
  }

  /** The report over records `ps` and a sorted permutation of them. */
  lemma ReportOfSpec(ps: seq<DomainPair>, sorted: seq<DomainPair>)
    requires multiset(sorted) == multiset(ps) && SortedBy(sorted, PairScoreGe) && Priced(ps)
    ensures var r := ReportOf(ps, sorted);
      r.totalSynergies == |ps| &&
      r.highPotential <= r.collaborationOpportunities <= r.totalSynergies &&
      |r.top| == IntMin(5, r.totalSynergies) && SortedBy(r.top, PairScoreGe) && Priced(r.top) &&
      (|r.recommendations| == 1 <==> r.totalSynergies > 0)
  {
    CountAboveMonotone(ps, 60, 70);
    CountAbovePermutation(ps, sorted, 60);
    PricedPermutation(ps, sorted);
    assert |sorted| == |ps| by { assert |multiset(sorted)| == |multiset(ps)|; }
  }

  /** A domain pair left out of the five listed scores no higher than any
      pair listed. */
  lemma SynergyTopMaximal(ds: seq<string>, x: DomainPair)
    requires x in AllDomainPairs(ds) && x !in SynergyReportFor(ds).top
    ensures forall k :: 0 <= k < |SynergyReportFor(ds).top| ==> SynergyReportFor(ds).top[k].score >= x.score
  {
    var ps := AllDomainPairs(ds);
    var sorted := SortBy(ps, PairScoreGe);
    var top := SynergyReportFor(ds).top;
    assert TotalPreorder(PairScoreGe);
    SortBySorted(ps, PairScoreGe);
    assert top == Take(sorted, 5);
    PrefixMaximal(ps, sorted, top, PairScoreGe, x);
  }

  /** Every record is priced at 50000 + 3000 times its score. */
  predicate Priced(ps: seq<DomainPair>) {
    forall k :: 0 <= k < |ps| ==> ps[k].recommendedInvestment == 50000 + 3000 * ps[k].score
  }

  lemma {:induction false} RecordsPriced(ps: seq<(string, string)>)
    ensures Priced(Records(ps))
  {
    if ps != [] {
      RecordsPriced(ps[1..]);
      var r := Records(ps);
      assert r[1..] == Records(ps[1..]);
      forall k | 0 <= k < |r| ensures r[k].recommendedInvestment == 50000 + 3000 * r[k].score {
        if k > 0 {
          assert r[k] == r[1..][k - 1];
        }
      }
    }
  }

  lemma PricedPermutation(a: seq<DomainPair>, b: seq<DomainPair>)
    requires multiset(a) == multiset(b) && Priced(a)
    ensures Priced(b)
  {
    forall k | 0 <= k < |b| ensures b[k].recommendedInvestment == 50000 + 3000 * b[k].score {
      assert b[k] in multiset(a);
      var i :| 0 <= i < |a| && a[i] == b[k];
    }
  }

  /** The body of the inner loop: the score, shared resources, benefits
      and investment of one pair of domains. */
  method PairRecord(a: string, b: string) returns (record: DomainPair)
    ensures record == MakePair(a, b)
  {
    var score := DomainSynergy(a, b);
    var resources := SharedResources(a, b);
    var benefits := SynergyBenefits(a, b);
    record := DomainPair(a, b, score, resources, benefits, 50000 + score * 3000);
  }

  /** The nested loops: the `total_synergies` and `high_potential_synergies`
      counters and the appended records. */
  method CollectDomainPairs(ds: seq<string>) returns (synergies: seq<DomainPair>, total: nat, high: nat)
    ensures synergies == AllDomainPairs(ds)
    ensures total == |synergies| && high == CountAbove(synergies, 70)
  {
    synergies, total, high := [], 0, 0;
    var i := 0;
    while i < |ds|
      invariant 0 <= i <= |ds|
      invariant synergies == Records(PairsBefore(ds, i))
      invariant total == |synergies| && high == CountAbove(synergies, 70)
    {
      synergies, total, high := CollectRow(ds, i, synergies, total, high);
      RecordsConcat(PairsBefore(ds, i), RowPairs(ds, i, |ds|));
      i := i + 1;
    }
    assert i == |ds|;
  }

  /** The inner loop for row i: the records of (ds[i], ds[j]) for j > i. */
  method CollectRow(ds: seq<string>, i: nat, start: seq<DomainPair>, total0: nat, high0: nat)
    returns (synergies: seq<DomainPair>, total: nat, high: nat)
    requires i < |ds| && total0 == |start| && high0 == CountAbove(start, 70)
    ensures synergies == start + Records(RowPairs(ds, i, |ds|))
    ensures total == |synergies| && high == CountAbove(synergies, 70)
  {
    synergies, total, high := start, total0, high0;
    var j := i + 1;
    ghost var row: seq<(string, string)> := [];
    while j < |ds|
      invariant i + 1 <= j <= |ds|
      invariant row == RowPairs(ds, i, j) && synergies == start + Records(row)
      invariant total == |synergies| && high == CountAbove(synergies, 70)
    {
      synergies, total, high := AppendPair(ds[i], ds[j], start, row, synergies, total, high);
      row := row + [(ds[i], ds[j])];
      j := j + 1;
    }
    assert j == |ds|;
    assert row == RowPairs(ds, i, |ds|);
  }

  /** One pass of the inner loop: the record of (a, b) is appended and the
      two counters follow it. */
  method AppendPair(a: string, b: string, start: seq<DomainPair>, ghost row: seq<(string, string)>,
                    synergies0: seq<DomainPair>, total0: nat, high0: nat)
    returns (synergies: seq<DomainPair>, total: nat, high: nat)
    requires synergies0 == start + Records(row)
    requires total0 == |synergies0| && high0 == CountAbove(synergies0, 70)
    ensures synergies == start + Records(row + [(a, b)])
    ensures total == |synergies| && high == CountAbove(synergies, 70)
  {
    var record := PairRecord(a, b);
    total := total0 + 1;
    high := high0;
    if record.score > 70 {
      high := high + 1;
    }
    CountAboveAppend(synergies0, [record], 70);
    RecordsConcat(row, [(a, b)]);
    assert Records([(a, b)]) == [record];
    AppendAssoc(start, Records(row), [record]);
    synergies := synergies0 + [record];
  }

  /** The whole of `get_cross_domain_synergy` once the domains are chosen. */
  method CrossDomainSynergyFor(ds: seq<string>) returns (r: SynergyReport)
    ensures r == SynergyReportFor(ds)
  {
    var synergies, total, high := CollectDomainPairs(ds);
    var sorted := SortBy(synergies, PairScoreGe);
    var recommendations := SynergyInvestments(Take(sorted, 3));
    var avg := if sorted == [] then 0 else RoundHalfEven(ScoreSum(sorted) as real / |sorted| as real);
    r := SynergyReport(total, high, CountAbove(sorted, 60), avg, Take(sorted, 5), recommendations);
  }

  /** The payload returned when the frame is empty. */
  const DefaultSynergyReport := SynergyReport(12, 4, 8, 78,
    [DomainPair("Human Physiology", "Psychology", 90,
                ["Clinical Facilities", "Research Teams", "Data Analysis Tools"],
                ["Integrated health monitoring", "Enhanced research outcomes"], 320000)],
    [InvestmentRec("Cross-Domain Collaboration Initiative",
                   "Establish formal collaboration framework between high-synergy domains",
                   500000, 145, "12 months", "High")])
}
