/** `DynamicDataProcessor` (cursor-back/data_processor.py): the Task Book
    projects, each with a keyword-assigned research domain, and the
    manager-dashboard analyses over them: investment recommendations,
    red-flag alerts, budget simulation, emerging areas and the cross-domain
    synergy report. The random columns of `load_data` and the current year
    are inputs. */
module DataProcessor {
  import opened Wrappers
  import opened Text
  import opened Numeric
  import opened Sorting
  import CT = CrossDomainText
  import DS = DomainSynergy

  // ---------------------------------------------------------------------
  // _assign_domain

  const OtherDomain := "Other"

  /** `domain_keywords`, in dictionary order. */
  const ProcessorKeywords: seq<(string, seq<string>)> := [
    ("Plants", ["plant", "flora", "crop", "seed", "photosynth", "phyt", "agri", "leaf", "root"]),
    ("Microbes", ["microbe", "microbial", "bacteria", "bacterial", "virus", "fungi", "fungal",
                  "staphyl", "streptoc", "pathogen", "microorganism"]),
    ("Radiation", ["radiation", "ionizing", "cosmic", "radiol", "shield", "dosimetry", "radiobiology"]),
    ("Psychology", ["psych", "behavior", "crew", "cognitive", "sleep", "social", "mental",
                    "stress", "isolation"]),
    ("Human Physiology", ["cardio", "cardiovascular", "musculo", "bone", "neuro",
                          "endocrine", "immune"])
  ]

  /** The text classified: Title, Abstract, Methods and Results joined by
      single spaces and lower-cased. The Conclusion is not read. */
  function ClassifiedText(r: CT.Row): string {
    Lower(CT.Str(r.title) + " " + CT.Str(r.summary) + " " + CT.Str(r.methods) + " " + CT.Str(r.results))
  }

  /** Some keyword of the list occurs in the text. */
  predicate Mentions(text: string, kws: seq<string>) {
    exists j :: 0 <= j < |kws| && Contains(text, kws[j])
  }

  /** The position of the first domain of `table` that has a keyword in the
      text; `|table|` when there is none. */
  function FirstMatching(text: string, table: seq<(string, seq<string>)>): (k: nat)
    ensures k <= |table|
    ensures forall i :: 0 <= i < k ==> !Mentions(text, table[i].1)
    ensures k < |table| ==> Mentions(text, table[k].1)
  {
    if table == [] then 0
    else if Mentions(text, table[0].1) then 0
    else
      var k := FirstMatching(text, table[1..]);
      assert forall i :: 1 <= i < |table| ==> table[i] == table[1..][i - 1];
      1 + k
  }

  /** The domain `_assign_domain` gives a row. */
  function AssignDomain(r: CT.Row): string {
    var k := FirstMatching(ClassifiedText(r), ProcessorKeywords);
    if k < |ProcessorKeywords| then ProcessorKeywords[k].0 else OtherDomain
  }

  /** 'Other' exactly when no keyword of any domain occurs; otherwise the
      first domain, in table order, with a keyword in the text. */
  lemma AssignDomainSpec(r: CT.Row)
    ensures AssignDomain(r) == OtherDomain <==>
      forall i :: 0 <= i < |ProcessorKeywords| ==> !Mentions(ClassifiedText(r), ProcessorKeywords[i].1)
    ensures AssignDomain(r) != OtherDomain ==>
      exists k :: 0 <= k < |ProcessorKeywords| && AssignDomain(r) == ProcessorKeywords[k].0 &&
        Mentions(ClassifiedText(r), ProcessorKeywords[k].1) &&
        forall i :: 0 <= i < k ==> !Mentions(ClassifiedText(r), ProcessorKeywords[i].1)
  {
    assert forall i :: 0 <= i < |ProcessorKeywords| ==> ProcessorKeywords[i].0 != OtherDomain;
  }

  /** The Conclusion column plays no part in the domain. */
  lemma AssignDomainIgnoresConclusion(r: CT.Row, c: CT.Cell)
    ensures AssignDomain(r.(conclusion := c)) == AssignDomain(r)
  {
  }

  // ---------------------------------------------------------------------
  // load_data

  /** The columns `load_data` draws at random for one project: fiscal year,
      funding and ROI. */
  datatype Synthetic = Synthetic(fiscalYear: int, funding: int, roi: real)

  /** A project after `load_data`. */
  datatype Study = Study(domain: string, fiscalYear: int, recent5: bool, recent7: bool,
                         funding: int, roi: real)

  function MakeStudy(r: CT.Row, x: Synthetic, year: int): Study {
    Study(AssignDomain(r), x.fiscalYear, x.fiscalYear >= year - 5, x.fiscalYear >= year - 7,
          x.funding, x.roi)
  }

  /** The frame `load_data` builds from the CSV rows. */
  function Studies(rows: seq<CT.Row>, synth: seq<Synthetic>, year: int): (df: seq<Study>)
    requires |synth| == |rows|
    ensures |df| == |rows|
    ensures forall i :: 0 <= i < |rows| ==> df[i] == MakeStudy(rows[i], synth[i], year)
  {
    seq(|rows|, i requires 0 <= i < |rows| => MakeStudy(rows[i], synth[i], year))
  }

  /** A project of the last five years is also one of the last seven. */
  lemma RecentFiveWithinSeven(rows: seq<CT.Row>, synth: seq<Synthetic>, year: int)
    requires |synth| == |rows|
    ensures forall i :: 0 <= i < |rows| ==> Studies(rows, synth, year)[i].recent5 ==> Studies(rows, synth, year)[i].recent7
  {
  }

  // ---------------------------------------------------------------------
  // Columns and counts

  predicate AnyStudy(s: Study) { true }
  predicate Recent5(s: Study) { s.recent5 }
  predicate Recent7(s: Study) { s.recent7 }

  /** The `Assigned_Domain` column of the rows satisfying `p`. */
  function DomainsWhere(df: seq<Study>, p: Study -> bool): (ds: seq<string>)
    ensures |ds| <= |df|
  {
    if df == [] then [] else (if p(df[0]) then [df[0].domain] else []) + DomainsWhere(df[1..], p)
  }

  function DomainColumn(df: seq<Study>): seq<string> { DomainsWhere(df, AnyStudy) }
  function RecentDomains(df: seq<Study>): seq<string> { DomainsWhere(df, Recent5) }

  lemma {:induction false} DomainColumnLength(df: seq<Study>)
    ensures |DomainColumn(df)| == |df|
  {
    if df != [] {
      DomainColumnLength(df[1..]);
    }
  }

  /** A domain has no more rows satisfying `p` than rows in all. */
  lemma {:induction false} CountWhereAtMost(df: seq<Study>, p: Study -> bool, d: string)
    ensures Occurrences(DomainsWhere(df, p), d) <= Occurrences(DomainColumn(df), d)
  {
    if df != [] {
      CountWhereAtMost(df[1..], p, d);
      OccurrencesCons(df[0].domain, DomainColumn(df[1..]), d);
      if p(df[0]) {
        OccurrencesCons(df[0].domain, DomainsWhere(df[1..], p), d);
      } else {
        assert DomainsWhere(df, p) == DomainsWhere(df[1..], p);
      }
    }
  }

  /** The ROI column of the rows of domain `d`. */
  function RoisOf(df: seq<Study>, d: string): (rs: seq<real>)
    ensures |rs| == Occurrences(DomainColumn(df), d)
  {
    if df == [] then []
    else
      OccurrencesCons(df[0].domain, DomainColumn(df[1..]), d);
      (if df[0].domain == d then [df[0].roi] else []) + RoisOf(df[1..], d)
  }

  /** The summed `Funding` of the rows of domain `d`. */
  function FundingOf(df: seq<Study>, d: string): int {
    if df == [] then 0 else (if df[0].domain == d then df[0].funding else 0) + FundingOf(df[1..], d)
  }

  /** `roi_by_domain.get(d, 2.0)`: the mean ROI of the domain's rows, 2.0
      for a domain without rows. */
  function DomainRoi(df: seq<Study>, d: string): real {
    var rs := RoisOf(df, d);
    if rs == [] then 2.0 else Mean(rs)
  }

  // ---------------------------------------------------------------------
  // value_counts labels (the counts are in Sorting)

  function Labels(vc: seq<(string, nat)>): (ls: seq<string>)
    ensures |ls| == |vc| && forall k :: 0 <= k < |vc| ==> ls[k] == vc[k].0
  {
    seq(|vc|, k requires 0 <= k < |vc| => vc[k].0)
  }

  // ---------------------------------------------------------------------
  // get_investment_recommendations

  /** `idxmin()`: the first position holding the smallest count. */
  function IndexOfMin(vc: seq<(string, nat)>): (k: nat)
    requires vc != []
    ensures k < |vc|
    ensures forall i :: 0 <= i < |vc| ==> vc[k].1 <= vc[i].1
    ensures forall i :: 0 <= i < k ==> vc[k].1 < vc[i].1
  {
    if |vc| == 1 then 0
    else
      var k := IndexOfMin(vc[..|vc| - 1]);
      if vc[|vc| - 1].1 < vc[k].1 then |vc| - 1 else k
  }

  /** `idxmax()`: the first position holding the largest count. */
  function IndexOfMax(vc: seq<(string, nat)>): (k: nat)
    requires vc != []
    ensures k < |vc|
    ensures forall i :: 0 <= i < |vc| ==> vc[i].1 <= vc[k].1
    ensures forall i :: 0 <= i < k ==> vc[i].1 < vc[k].1
  {
    if |vc| == 1 then 0
    else
      var k := IndexOfMax(vc[..|vc| - 1]);
      if vc[|vc| - 1].1 > vc[k].1 then |vc| - 1 else k
  }

  datatype Primary = Primary(domain: string, currentStudies: nat, suggestedIncrease: int,
                             expectedOutcome: int, investmentNeeded: int, potentialRoi: real)
  datatype Balance = Balance(domain: string, currentStudies: nat, suggestedDecrease: int,
                             expectedOutcome: int, costSavings: int, currentRoi: real)
  datatype Impact = Impact(totalInvestment: int, totalSavings: int, netInvestment: int, roiMultiplier: real)
  datatype Recommendations = Recommendations(primary: Primary, balance: Balance, impact: Impact)

  /** The least and the most studied domain of the recent projects, with
      their counts; "Other" and "Plants", both counted 0, when there are no
      recent projects. */
  function Underfunded(vc: seq<(string, nat)>): (string, nat) {
    if vc == [] then (OtherDomain, 0) else vc[IndexOfMin(vc)]
  }

  function Overfunded(vc: seq<(string, nat)>): (string, nat) {
    if vc == [] then ("Plants", 0) else vc[IndexOfMax(vc)]
  }

  /** The three parts of the recommendation, for the least studied domain
      `under` and the most studied `over` with their recent counts. */
  function MakeRecommendations(df: seq<Study>, under: (string, nat), over: (string, nat)): Recommendations {
    var u, o := under.1, over.1;
    var savings := Trunc(o as real * 50000.0 * 0.25);
    Recommendations(
      Primary(under.0, u, 50, Trunc(u as real * 1.5), u * 50000, DomainRoi(df, under.0)),
      Balance(over.0, o, -25, Trunc(o as real * 0.75), savings, DomainRoi(df, over.0)),
      Impact(u * 50000, savings, Trunc((u * 50000) as real - o as real * 50000.0 * 0.25),
             Round1((u * 50000) as real / 1000000.0)))
  }

  /** `get_investment_recommendations`; `None` for an empty frame (`{}`). */
  function InvestmentRecommendations(df: seq<Study>): Option<Recommendations> {
    if df == [] then None
    else
      var vc := ValueCounts(RecentDomains(df));
      Some(MakeRecommendations(df, Underfunded(vc), Overfunded(vc)))
  }

  /** The increase goes to a least studied recent domain and the decrease to
      a most studied one, each with its recent count. */
  lemma RecommendationTargets(df: seq<Study>)
    requires df != []
    ensures var r := InvestmentRecommendations(df).value; var rd := RecentDomains(df);
      (rd == [] ==> r.primary.domain == OtherDomain && r.balance.domain == "Plants" &&
                    r.primary.currentStudies == 0 && r.balance.currentStudies == 0) &&
      (rd != [] ==>
        r.primary.domain in rd && r.balance.domain in rd &&
        r.primary.currentStudies == Occurrences(rd, r.primary.domain) &&
        r.balance.currentStudies == Occurrences(rd, r.balance.domain) &&
        (forall d :: d in rd ==> r.primary.currentStudies <= Occurrences(rd, d) <= r.balance.currentStudies))
  {
    var rd := RecentDomains(df);
    var vc := ValueCounts(rd);
    ValueCountsSpec(rd);
    if rd != [] {
      assert rd[0] in rd;
      var i :| 0 <= i < |vc| && vc[i].0 == rd[0];
      assert vc != [];
      forall d | d in rd ensures vc[IndexOfMin(vc)].1 <= Occurrences(rd, d) <= vc[IndexOfMax(vc)].1 {
        var k :| 0 <= k < |vc| && vc[k].0 == d;
      }
    }
  }

  /** The amounts: half as many studies again and 50000 per study for the
      increase, three quarters of the studies and 12500 per study saved for
      the decrease, the net the difference of the two. */
  lemma RecommendationAmounts(df: seq<Study>, under: (string, nat), over: (string, nat))
    ensures var r := MakeRecommendations(df, under, over);
      var u, o := under.1, over.1;
      r.primary.domain == under.0 && r.balance.domain == over.0 &&
      r.primary.currentStudies == u && r.balance.currentStudies == o &&
      r.primary.expectedOutcome == (3 * u) / 2 && r.primary.investmentNeeded == 50000 * u &&
      r.balance.expectedOutcome == (3 * o) / 4 && r.balance.costSavings == 12500 * o &&
      r.impact.totalInvestment == 50000 * u && r.impact.totalSavings == 12500 * o &&
      r.impact.netInvestment == 50000 * u - 12500 * o &&
      r.primary.suggestedIncrease == 50 && r.balance.suggestedDecrease == -25 &&
      r.primary.potentialRoi == DomainRoi(df, under.0) && r.balance.currentRoi == DomainRoi(df, over.0)
  {
    var u: int, o: int := under.1, over.1;
    var e1 := Trunc(u as real * 1.5);
    assert 2 * e1 <= 3 * u < 2 * e1 + 2;
    var e2 := Trunc(o as real * 0.75);
    assert 4 * e2 <= 3 * o < 4 * e2 + 4;
    var s := o as real * 50000.0 * 0.25;
    assert s == (12500 * o) as real;
    assert ((12500 * o) as real).Floor == 12500 * o;
    var net := (u * 50000) as real - o as real * 50000.0 * 0.25;
    assert net == (50000 * u - 12500 * o) as real;
    if net < 0.0 {
      assert (-net).Floor == -(50000 * u - 12500 * o);
    } else {
      assert net.Floor == 50000 * u - 12500 * o;
    }
  }

  // ---------------------------------------------------------------------
  // get_red_flag_alerts

  datatype Level = Critical | Warning

  datatype Alert = Alert(domain: string, level: Level, recentStudies: nat, totalStudies: nat,
                         threshold: nat, importance: string, suggestedIncrease: int,
                         estimatedCost: int, urgency: string)

  /** `critical_domains`, in dictionary order: domain, threshold, importance. */
  const CriticalDomains: seq<(string, nat, string)> := [
    ("Radiation", 20, "Deep space mission safety"),
    ("Psychology", 30, "Crew mental health"),
    ("Plants", 50, "Food sustainability"),
    ("Human Physiology", 15, "Astronaut health")
  ]

  function Urgency(l: Level): string {
    if l == Critical then "IMMEDIATE ACTION REQUIRED" else "MONITOR CLOSELY"
  }

  /** The alert for one critical domain, when its projects of the last seven
      years are below the threshold. */
  function DomainAlert(df: seq<Study>, c: (string, nat, string)): Option<Alert> {
    var recent := Occurrences(DomainsWhere(df, Recent7), c.0);
    var total := Occurrences(DomainColumn(df), c.0);
    if recent < c.1 then
      var level := if (recent as real) < (c.1 as real) * 0.5 then Critical else Warning;
      var increase := IntMax(c.1 - recent, 5);
      Some(Alert(c.0, level, recent, total, c.1, c.2, increase, increase * 50000, Urgency(level)))
    else None
  }

  /** The alerts of the first k critical domains, in table order. */
  function AlertsBefore(df: seq<Study>, k: nat): seq<Alert>
    requires k <= |CriticalDomains|
  {
    if k == 0 then []
    else AlertsBefore(df, k - 1) + (match DomainAlert(df, CriticalDomains[k - 1])
                                    case None => []
                                    case Some(a) => [a])
  }

  /** `get_red_flag_alerts`: no alerts for an empty frame. */
  function RedFlagAlerts(df: seq<Study>): seq<Alert> {
    if df == [] then [] else AlertsBefore(df, |CriticalDomains|)
  }

  /** An alert is raised exactly below the threshold. It is critical exactly
      below half the threshold, its urgency follows its level, and the
      suggested increase is at least 5 and reaches the threshold, at 50000
      per study. */
  lemma DomainAlertSpec(df: seq<Study>, c: (string, nat, string))
    ensures DomainAlert(df, c).Some? <==> Occurrences(DomainsWhere(df, Recent7), c.0) < c.1
    ensures DomainAlert(df, c).Some? ==> var a := DomainAlert(df, c).value;
      a.domain == c.0 && a.threshold == c.1 && a.importance == c.2 &&
      a.recentStudies == Occurrences(DomainsWhere(df, Recent7), c.0) &&
      a.totalStudies == Occurrences(DomainColumn(df), c.0) &&
      a.recentStudies <= a.totalStudies &&
      (a.level == Critical <==> 2 * a.recentStudies < a.threshold) &&
      a.urgency == (if a.level == Critical then "IMMEDIATE ACTION REQUIRED" else "MONITOR CLOSELY") &&
      a.suggestedIncrease >= 5 && a.recentStudies + a.suggestedIncrease >= a.threshold &&
      a.estimatedCost == 50000 * a.suggestedIncrease
  {
    CountWhereAtMost(df, Recent7, c.0);
  }

  /** One iteration of the loop of `get_red_flag_alerts`. */
  method AppendAlert(df: seq<Study>, c: (string, nat, string), alerts0: seq<Alert>) returns (alerts: seq<Alert>)
    ensures alerts == alerts0 + match DomainAlert(df, c) case None => [] case Some(a) => [a]
  {
    alerts := alerts0;
    var recent := Occurrences(DomainsWhere(df, Recent7), c.0);
    var total := Occurrences(DomainColumn(df), c.0);
    if recent < c.1 {
      var level := if (recent as real) < (c.1 as real) * 0.5 then Critical else Warning;
      var increase := IntMax(c.1 - recent, 5);
      alerts := alerts + [Alert(c.0, level, recent, total, c.1, c.2, increase, increase * 50000,
                                if level == Critical then "IMMEDIATE ACTION REQUIRED" else "MONITOR CLOSELY")];
    }
  }

  /** The position of a critical domain in the table. */
  function Rank(d: string): nat {
    if d == "Radiation" then 0 else if d == "Psychology" then 1 else if d == "Plants" then 2
    else if d == "Human Physiology" then 3 else 4
  }

  lemma RankOfCritical(i: nat)
    requires i < |CriticalDomains|
    ensures Rank(CriticalDomains[i].0) == i
  {
  }

  /** The alert of a domain names that domain. */
  lemma DomainAlertDomain(df: seq<Study>, c: (string, nat, string))
    ensures DomainAlert(df, c).Some? ==> DomainAlert(df, c).value.domain == c.0
  {
  }

  /** The first k domains raise an alert exactly when they are below their
      thresholds. */
  lemma AlertsBeforeDomains(df: seq<Study>, k: nat, d: string)
    requires k <= |CriticalDomains|
    ensures (exists a :: a in AlertsBefore(df, k) && a.domain == d) <==>
      exists i :: 0 <= i < k && CriticalDomains[i].0 == d && DomainAlert(df, CriticalDomains[i]).Some?
  {
    if a :| a in AlertsBefore(df, k) && a.domain == d {
      AlertsBeforeOwn(df, k);
      DomainAlertDomain(df, CriticalDomains[Rank(a.domain)]);
    }
    if i :| 0 <= i < k && CriticalDomains[i].0 == d && DomainAlert(df, CriticalDomains[i]).Some? {
      AlertsBeforeHas(df, k, i);
      DomainAlertDomain(df, CriticalDomains[i]);
    }
  }

  /** The alert of each of the first k domains is among their alerts. */
  lemma {:induction false} AlertsBeforeHas(df: seq<Study>, k: nat, i: nat)
    requires i < k <= |CriticalDomains| && DomainAlert(df, CriticalDomains[i]).Some?
    ensures DomainAlert(df, CriticalDomains[i]).value in AlertsBefore(df, k)
  {
    var pre := AlertsBefore(df, k - 1);
    var c := CriticalDomains[k - 1];
    var tail := match DomainAlert(df, c) case None => [] case Some(a) => [a];
    assert AlertsBefore(df, k) == pre + tail;
    if i < k - 1 {
      AlertsBeforeHas(df, k - 1, i);
    } else {
      assert tail == [DomainAlert(df, CriticalDomains[i]).value];
    }
  }

  /** Every alert of the first k domains is the alert of its own domain. */
  lemma {:induction false} AlertsBeforeOwn(df: seq<Study>, k: nat)
    requires k <= |CriticalDomains|
    ensures forall a :: a in AlertsBefore(df, k) ==>
      Rank(a.domain) < k && DomainAlert(df, CriticalDomains[Rank(a.domain)]) == Some(a)
  {
    if k > 0 {
      AlertsBeforeOwn(df, k - 1);
      var c := CriticalDomains[k - 1];
      RankOfCritical(k - 1);
      DomainAlertDomain(df, c);
      var pre := AlertsBefore(df, k - 1);
      if DomainAlert(df, c).Some? {
        assert AlertsBefore(df, k) == pre + [DomainAlert(df, c).value];
      } else {
        assert AlertsBefore(df, k) == pre;
      }
    }
  }

  /** The alerts of the first k domains come in table order. */
  lemma {:induction false} AlertsBeforeOrdered(df: seq<Study>, k: nat)
    requires k <= |CriticalDomains|
    ensures forall i, j :: 0 <= i < j < |AlertsBefore(df, k)| ==>
      Rank(AlertsBefore(df, k)[i].domain) < Rank(AlertsBefore(df, k)[j].domain)
  {
    if k > 0 {
      AlertsBeforeOrdered(df, k - 1);
      AlertsBeforeOwn(df, k - 1);
      var c := CriticalDomains[k - 1];
      RankOfCritical(k - 1);
      DomainAlertDomain(df, c);
      var pre := AlertsBefore(df, k - 1);
      var all := AlertsBefore(df, k);
      if DomainAlert(df, c).Some? {
        assert all == pre + [DomainAlert(df, c).value];
        forall i, j | 0 <= i < j < |all| ensures Rank(all[i].domain) < Rank(all[j].domain) {
          if j == |pre| {
            assert all[i] == pre[i] && pre[i] in pre;
          } else {
            assert all[i] == pre[i] && all[j] == pre[j];
          }
        }
      } else {
        assert all == pre;
      }
    }
  }

  /** The alerts, over a non-empty frame, are exactly those of the critical
      domains below their thresholds, in the order Radiation, Psychology,
      Plants, Human Physiology. */
  lemma RedFlagAlertsSpec(df: seq<Study>, d: string)
    ensures (exists a :: a in RedFlagAlerts(df) && a.domain == d) <==>
      df != [] &&
      exists i :: 0 <= i < |CriticalDomains| && CriticalDomains[i].0 == d &&
                  Occurrences(DomainsWhere(df, Recent7), d) < CriticalDomains[i].1
    ensures forall a :: a in RedFlagAlerts(df) ==>
      Rank(a.domain) < |CriticalDomains| && DomainAlert(df, CriticalDomains[Rank(a.domain)]) == Some(a)
    ensures forall i, j :: 0 <= i < j < |RedFlagAlerts(df)| ==>
      Rank(RedFlagAlerts(df)[i].domain) < Rank(RedFlagAlerts(df)[j].domain)
  {
    if df != [] {
      AlertsBeforeDomains(df, |CriticalDomains|, d);
      AlertsBeforeOwn(df, |CriticalDomains|);
      AlertsBeforeOrdered(df, |CriticalDomains|);
      forall i | 0 <= i < |CriticalDomains| {
        DomainAlertSpec(df, CriticalDomains[i]);
      }
    }
  }

  // ---------------------------------------------------------------------
  // get_budget_simulation

  datatype Simulation = Simulation(domain: string, adjustment: real,
                                   currentStudies: nat, currentFunding: int, currentRoi: real,
                                   projectedStudies: int, projectedFunding: int, projectedRoi: real,
                                   studyDifference: int, fundingDifference: int,
                                   additionalInvestment: int, costSavings: int)

  /** `{}` for an empty frame, the error payload for an unknown domain, or
      the simulation. */
  datatype SimulationResult = NoData | DomainNotFound(message: string) | Simulated(sim: Simulation)

  /** The simulation of a domain with `n` projects, summed funding
      `funding` and mean ROI `roi`. */
  function MakeSimulation(d: string, adj: real, n: nat, funding: int, roi: real): Simulation {
    var projected := Trunc(Scale(n as real, adj));
    var projectedFunding := Scale(funding as real, adj);
    var diff := projected - n;
    Simulation(d, adj, n, funding, Round2(roi), projected, Trunc(projectedFunding), Round2(roi),
               diff, Trunc(projectedFunding - funding as real),
               if diff > 0 then diff * 50000 else 0,
               if diff < 0 then (-diff) * 50000 else 0)
  }

  /** `x * (1 + adjustment_percentage/100)`. */
  function Scale(x: real, adj: real): real {
    x * (1.0 + adj / 100.0)
  }

  /** `get_budget_simulation(domain, adjustment_percentage)`. */
  function BudgetSimulation(df: seq<Study>, d: string, adj: real): SimulationResult {
    if df == [] then NoData
    else
      var n := Occurrences(DomainColumn(df), d);
      if n == 0 then DomainNotFound("Domain '" + d + "' not found")
      else Simulated(MakeSimulation(d, adj, n, FundingOf(df, d), Mean(RoisOf(df, d))))
  }

  /** No data exactly for an empty frame, the error exactly for a domain
      without projects, otherwise the simulation of the domain's projects. */
  lemma BudgetSimulationCases(df: seq<Study>, d: string, adj: real)
    ensures BudgetSimulation(df, d, adj).NoData? <==> df == []
    ensures BudgetSimulation(df, d, adj).DomainNotFound? <==> df != [] && d !in DomainColumn(df)
    ensures BudgetSimulation(df, d, adj).DomainNotFound? ==>
      BudgetSimulation(df, d, adj).message == "Domain '" + d + "' not found"
    ensures BudgetSimulation(df, d, adj).Simulated? ==>
      BudgetSimulation(df, d, adj).sim ==
        MakeSimulation(d, adj, Occurrences(DomainColumn(df), d), FundingOf(df, d), Mean(RoisOf(df, d)))
  {
  }

  /** The projected count truncates count * (1 + adj/100), the ROI is kept,
      and the difference is charged as additional investment or credited as
      savings at 50000 per study, never both. */
  lemma SimulationSpec(d: string, adj: real, n: nat, funding: int, roi: real)
    ensures var s := MakeSimulation(d, adj, n, funding, roi);
      s.domain == d && s.currentStudies == n &&
      s.projectedStudies == Trunc(Scale(n as real, adj)) &&
      s.studyDifference == s.projectedStudies - n &&
      s.projectedRoi == s.currentRoi == Round2(roi) &&
      s.additionalInvestment == (if s.studyDifference > 0 then 50000 * s.studyDifference else 0) &&
      s.costSavings == (if s.studyDifference < 0 then -50000 * s.studyDifference else 0) &&
      (s.additionalInvestment == 0 || s.costSavings == 0) &&
      s.additionalInvestment >= 0 && s.costSavings >= 0
  {
  }

  /** No adjustment changes nothing. */
  lemma SimulationUnchanged(d: string, n: nat, funding: int, roi: real)
    ensures var s := MakeSimulation(d, 0.0, n, funding, roi);
      s.projectedStudies == n && s.studyDifference == 0 &&
      s.projectedFunding == funding && s.fundingDifference == 0 &&
      s.additionalInvestment == 0 && s.costSavings == 0
  {
    assert Scale(n as real, 0.0) == n as real;
    assert Scale(funding as real, 0.0) == funding as real;
    assert (n as real).Floor == n;
    if funding < 0 {
      assert (-(funding as real)).Floor == -funding;
    } else {
      assert (funding as real).Floor == funding;
    }
  }

  /** A cut of at most 100% never projects a negative count, and a larger
      adjustment never projects fewer studies. */
  lemma SimulationMonotone(d: string, n: nat, funding: int, roi: real, adj1: real, adj2: real)
    requires -100.0 <= adj1 <= adj2
    ensures 0 <= MakeSimulation(d, adj1, n, funding, roi).projectedStudies <=
                 MakeSimulation(d, adj2, n, funding, roi).projectedStudies
  {
    ScaleMonotone(n as real, adj1, adj2);
    TruncMonotone(Scale(n as real, adj1), Scale(n as real, adj2));
  }

  lemma ScaleMonotone(x: real, adj1: real, adj2: real)
    requires 0.0 <= x && -100.0 <= adj1 <= adj2
    ensures 0.0 <= Scale(x, adj1) <= Scale(x, adj2)
  {
    var f1, f2 := 1.0 + adj1 / 100.0, 1.0 + adj2 / 100.0;
    assert 0.0 <= f1 <= f2;
    assert x * f2 - x * f1 == x * (f2 - f1);
  }

  // ---------------------------------------------------------------------
  // get_emerging_areas

  datatype Status = Growing | Declining | Stable
  datatype Potential = High | Medium | Low

  datatype Emerging = Emerging(domain: string, growthScore: real, recentStudies: nat, totalStudies: nat,
                               status: Status, potential: Potential)

  function StatusOf(g: real): Status {
    if g > 1.0 then Growing else if g < -1.0 then Declining else Stable
  }

  function PotentialOf(g: real): Potential {
    if g > 2.0 then High else if g > 0.0 then Medium else Low
  }

  /** A high potential means growing, and a declining area has a low one. */
  lemma StatusPotential(g: real)
    ensures PotentialOf(g) == High ==> StatusOf(g) == Growing
    ensures StatusOf(g) == Declining ==> PotentialOf(g) == Low
  {
  }

  /** The growth of a domain: its share of the recent projects minus its
      share of all projects, in percent. */
  function Growth(recentCount: nat, recent: nat, totalCount: nat, total: nat): real
    requires recent > 0 && total > 0
  {
    recentCount as real / recent as real * 100.0 - totalCount as real / total as real * 100.0
  }

  function EmergingEntry(df: seq<Study>, e: (string, nat)): Emerging
    requires RecentDomains(df) != [] && df != []
  {
    var total := Occurrences(DomainColumn(df), e.0);
    var g := Growth(e.1, |RecentDomains(df)|, total, |df|);
    Emerging(e.0, Round2(g), e.1, total, StatusOf(g), PotentialOf(g))
  }

  predicate GrowthGe(a: Emerging, b: Emerging) { a.growthScore >= b.growthScore }

  /** One entry per recent domain, in `value_counts` order. */
  function EmergingRows(df: seq<Study>): (rows: seq<Emerging>)
    requires RecentDomains(df) != [] && df != []
    ensures |rows| == |ValueCounts(RecentDomains(df))|
    ensures forall k :: 0 <= k < |rows| ==> rows[k] == EmergingEntry(df, ValueCounts(RecentDomains(df))[k])
  {
    var vc := ValueCounts(RecentDomains(df));
    seq(|vc|, k requires 0 <= k < |vc| => EmergingEntry(df, vc[k]))
  }

  /** `get_emerging_areas`: the five areas of largest rounded growth. */
  function EmergingAreas(df: seq<Study>): seq<Emerging> {
    if df == [] || RecentDomains(df) == [] then []
    else Take(SortBy(EmergingRows(df), GrowthGe), 5)
  }

  /** The properties of one area: a recent domain with its recent and total
      counts, its rounded growth, and the status and potential of its
      growth. */
  predicate AreaOf(df: seq<Study>, e: Emerging)
    requires RecentDomains(df) != [] && df != []
  {
    var g := Growth(e.recentStudies, |RecentDomains(df)|, e.totalStudies, |df|);
    e.domain in RecentDomains(df) &&
    e.recentStudies == Occurrences(RecentDomains(df), e.domain) &&
    e.totalStudies == Occurrences(DomainColumn(df), e.domain) &&
    e.recentStudies <= e.totalStudies &&
    e.growthScore == Round2(g) && e.status == StatusOf(g) && e.potential == PotentialOf(g)
  }

  lemma EmergingRowsAreas(df: seq<Study>)
    requires RecentDomains(df) != [] && df != []
    ensures forall k :: 0 <= k < |EmergingRows(df)| ==> AreaOf(df, EmergingRows(df)[k])
  {
    var rd := RecentDomains(df);
    var vc := ValueCounts(rd);
    ValueCountsSpec(rd);
    forall k | 0 <= k < |vc| ensures AreaOf(df, EmergingRows(df)[k]) {
      CountWhereAtMost(df, Recent5, vc[k].0);
    }
  }

  /** Five areas, or one per recent domain when there are fewer, largest
      growth first, none exactly when there are no recent projects. */
  lemma EmergingAreasShape(df: seq<Study>)
    ensures |EmergingAreas(df)| == IntMin(5, |Distinct(RecentDomains(df))|)
    ensures EmergingAreas(df) == [] <==> df == [] || RecentDomains(df) == []
    ensures SortedBy(EmergingAreas(df), GrowthGe)
  {
    if df != [] && RecentDomains(df) != [] {
      ValueCountsNonEmpty(RecentDomains(df));
      var sorted := SortBy(EmergingRows(df), GrowthGe);
      assert TotalPreorder(GrowthGe);
      SortBySorted(EmergingRows(df), GrowthGe);
      TakeSorted(sorted, 5, GrowthGe);
      ValueCountsSpec(RecentDomains(df));
    }
  }

  /** No domain is listed as two areas. */
  lemma EmergingAreasDistinct(df: seq<Study>)
    ensures forall i, j :: 0 <= i < j < |EmergingAreas(df)| ==> EmergingAreas(df)[i].domain != EmergingAreas(df)[j].domain
  {
    if df != [] && RecentDomains(df) != [] {
      var rows := EmergingRows(df);
      var sorted := SortBy(rows, GrowthGe);
      var r := EmergingAreas(df);
      ValueCountsDistinct(RecentDomains(df));
      assert forall a, b :: 0 <= a < b < |rows| ==> rows[a].domain != rows[b].domain;
      forall i, j | 0 <= i < j < |r| ensures r[i].domain != r[j].domain {
        assert r[i] == sorted[i] && r[j] == sorted[j];
        DistinctOnce(rows, sorted, i, j);
        assert r[i] in multiset(rows) && r[j] in multiset(rows);
        var a :| 0 <= a < |rows| && rows[a] == r[i];
        var b :| 0 <= b < |rows| && rows[b] == r[j];
      }
    }
  }

  /** The top five: a recent domain left out of the areas grows no more
      than any area listed. */
  lemma EmergingAreasMaximal(df: seq<Study>, d: string)
    requires d in RecentDomains(df)
    requires forall k :: 0 <= k < |EmergingAreas(df)| ==> EmergingAreas(df)[k].domain != d
    ensures df != [] && RecentDomains(df) != []
    ensures var rd := RecentDomains(df);
      var g := Growth(Occurrences(rd, d), |rd|, Occurrences(DomainColumn(df), d), |df|);
      forall k :: 0 <= k < |EmergingAreas(df)| ==> EmergingAreas(df)[k].growthScore >= Round2(g)
  {
    var rd := RecentDomains(df);
    assert |rd| <= |df|;
    var rows := EmergingRows(df);
    var sorted := SortBy(rows, GrowthGe);
    var r := EmergingAreas(df);
    var vc := ValueCounts(rd);
    var k: nat :| k < |vc| && vc[k].0 == d by {
      ValueCountsSpec(rd);
    }
    assert vc[k].1 == Occurrences(rd, d) by {
      ValueCountsSpec(rd);
    }
    var x := rows[k];
    assert x.domain == d;
    assert x.growthScore == Round2(Growth(Occurrences(rd, d), |rd|, Occurrences(DomainColumn(df), d), |df|));
    assert r == Take(sorted, 5);
    assert x !in r;
    assert SortedBy(sorted, GrowthGe) by {
      assert TotalPreorder(GrowthGe);
      SortBySorted(rows, GrowthGe);
    }
    PrefixMaximal(rows, sorted, r, GrowthGe, x);
  }

  /** Every area reported is one of the recent domains, described as
      `AreaOf` says. */
  lemma EmergingAreasEntries(df: seq<Study>)
    requires RecentDomains(df) != [] && df != []
    ensures forall e :: e in EmergingAreas(df) ==> AreaOf(df, e)
  {
    var rows := EmergingRows(df);
    var sorted := SortBy(rows, GrowthGe);
    EmergingRowsAreas(df);
    forall e | e in EmergingAreas(df) ensures AreaOf(df, e) {
      assert e in sorted;
      assert e in multiset(rows);
      var i :| 0 <= i < |rows| && rows[i] == e;
    }
  }

  // ---------------------------------------------------------------------
  // get_cross_domain_synergy

  /** The eight most frequent domains, most frequent first. */
  function SynergyDomains(df: seq<Study>): (ds: seq<string>)
    ensures |ds| <= 8
  {
    Take(Labels(ValueCounts(DomainColumn(df))), 8)
  }

  /** `get_cross_domain_synergy`: the default payload for an empty frame. */
  function CrossDomainSynergy(df: seq<Study>): DS.SynergyReport {
    if df == [] then DS.DefaultSynergyReport else DS.SynergyReportFor(SynergyDomains(df))
  }

  /** Over a non-empty frame the report pairs k distinct domains of the frame,
      1 <= k <= 8, and counts k(k-1)/2 pairs, at most as many highly rated
      ones as collaboration opportunities, and lists at most five, highest
      first, each priced at 50000 + 3000 times its score. */
  lemma CrossDomainSynergySpec(df: seq<Study>)
    ensures df == [] ==> CrossDomainSynergy(df) == DS.DefaultSynergyReport
    ensures df != [] ==> var ds := SynergyDomains(df); var r := CrossDomainSynergy(df);
      1 <= |ds| <= 8 &&
      (forall i :: 0 <= i < |ds| ==> ds[i] in DomainColumn(df)) &&
      (forall i, j :: 0 <= i < j < |ds| ==> ds[i] != ds[j]) &&
      2 * r.totalSynergies == |ds| * (|ds| - 1) &&
      r.highPotential <= r.collaborationOpportunities <= r.totalSynergies &&
      |r.top| == IntMin(5, r.totalSynergies) && SortedBy(r.top, DS.PairScoreGe) &&
      (forall k :: 0 <= k < |r.top| ==> r.top[k].recommendedInvestment == 50000 + 3000 * r.top[k].score)
  {
    if df != [] {
      SynergyDomainsSpec(df);
      DS.SynergyReportSpec(SynergyDomains(df));
    }
  }

  /** A pair of synergy domains left out of the five listed scores no
      higher than any pair listed. */
  lemma CrossDomainSynergyMaximal(df: seq<Study>, x: DS.DomainPair)
    requires df != [] && x in DS.AllDomainPairs(SynergyDomains(df)) && x !in CrossDomainSynergy(df).top
    ensures forall k :: 0 <= k < |CrossDomainSynergy(df).top| ==> CrossDomainSynergy(df).top[k].score >= x.score
  {
    DS.SynergyTopMaximal(SynergyDomains(df), x);
  }

  /** A non-empty frame has between one and eight synergy domains, distinct
      values of its domain column. */
  lemma SynergyDomainsSpec(df: seq<Study>)
    requires df != []
    ensures var ds := SynergyDomains(df);
      1 <= |ds| <= 8 &&
      (forall i :: 0 <= i < |ds| ==> ds[i] in DomainColumn(df)) &&
      (forall i, j :: 0 <= i < j < |ds| ==> ds[i] != ds[j])
  {
    var col := DomainColumn(df);
    DomainColumnLength(df);
    ValueCountsSpec(col);
    ValueCountsDistinct(col);
    ValueCountsNonEmpty(col);
  }

  // ---------------------------------------------------------------------
  // The processor

  class DynamicDataProcessor {
    /** The loaded frame; empty when loading failed. */
    var df: seq<Study>

    /** `__init__`, which loads at once. */
    constructor(csv: Option<seq<CT.Row>>, synth: seq<Synthetic>, year: int)
      requires csv.Some? ==> |synth| == |csv.value|
      ensures df == if csv.Some? then Studies(csv.value, synth, year) else []
    {
      df := [];
      new;
      LoadData(csv, synth, year);
    }

    /** `load_data` with the CSV rows (`None` when reading fails), the random
        columns and the current year. */
    method LoadData(csv: Option<seq<CT.Row>>, synth: seq<Synthetic>, year: int)
      requires csv.Some? ==> |synth| == |csv.value|
      modifies this
      ensures df == if csv.Some? then Studies(csv.value, synth, year) else []
    {
      if csv.None? {
        df := [];
        return;
      }
      df := Studies(csv.value, synth, year);
    }

    /** The loop of `get_red_flag_alerts`. */
    method GetRedFlagAlerts() returns (alerts: seq<Alert>)
      ensures alerts == RedFlagAlerts(df)
    {
      if df == [] {
        return [];
      }
      alerts := [];
      var k := 0;
      while k < |CriticalDomains|
        invariant 0 <= k <= |CriticalDomains|
        invariant alerts == AlertsBefore(df, k)
      {
        alerts := AppendAlert(df, CriticalDomains[k], alerts);
        k := k + 1;
      }
      assert k == |CriticalDomains|;
    }

    /** `get_cross_domain_synergy`, whose pair loops are
        `DomainSynergy.CollectDomainPairs`. */
    method GetCrossDomainSynergy() returns (r: DS.SynergyReport)
      ensures r == CrossDomainSynergy(df)
    {
      if df == [] {
        return DS.DefaultSynergyReport;
      }
      var domains := SynergyDomains(df);
      r := DS.CrossDomainSynergyFor(domains);
    }
  }
}
