/** The hypothesis generator of the back end.  Given the paper table, the
    papers ranked by their TF-IDF similarity to a query and the stored
    hypotheses of some papers, it returns at most five hypotheses, highest
    confidence first: the stored ones of the first related paper that has
    any, or else hypotheses built from research gaps, method combinations,
    publication trends and the concepts named in the query. */
module HypothesisGenerator {
  import opened Text
  import opened Sorting
  import opened Wrappers
  import opened Numeric
  import opened JsNumber

  /** A row of the paper table; `None` stands for a missing (NaN) cell. */
  datatype Row = Row(title: Option<string>, link: Option<string>)

  /** A paper with its similarity to the query. */
  datatype Scored = Scored(row: Row, similarity: real)

  /** A `related_papers` entry. */
  datatype Ref = Ref(title: Option<string>, link: Option<string>)

  datatype Hypothesis = Hypothesis(
    hypothesis: string, supportingEvidence: string, confidence: real, kind: string, relatedPapers: seq<Ref>)

  /** `str(cell)` and f-string rendering: a missing cell shows as "nan". */
  function CellText(cell: Option<string>): string {
    match cell
    case None => "nan"
    case Some(s) => s
  }

  // PMC identifiers

  /** "PMC" followed by a digit starts at index `i` of `s`. */
  predicate PmcAt(s: string, i: int) {
    0 <= i && i + 4 <= |s| && s[i..i + 3] == "PMC" && IsDigit(s[i + 3])
  }

  /** `re.search(r'PMC(\d+)', s)`: the leftmost match, with all its digits. */
  function FindPmc(s: string): Option<string>
    decreases |s|
  {
    if |s| < 4 then None
    else if PmcAt(s, 0) then Some("PMC" + LeadingDigits(s[3..]))
    else FindPmc(s[1..])
  }

  /** `_extract_pmc_id`: nothing for a missing or empty link. */
  function ExtractPmcId(link: Option<string>): Option<string> {
    match link
    case None => None
    case Some(s) => if s == "" then None else FindPmc(s)
  }

  lemma PmcAtShift(s: string, i: int)
    requires |s| >= 1 && i >= 1
    ensures PmcAt(s, i) <==> PmcAt(s[1..], i - 1)
  {
    if i + 4 <= |s| {
      assert s[i..i + 3] == s[1..][i - 1..i + 2];
    }
  }

  /** The identifier is "PMC" and the whole digit run of the leftmost
      "PMC<digit>" in the link. */
  lemma {:induction false} FindPmcLeftmost(s: string, i: nat)
    requires PmcAt(s, i) && forall j :: 0 <= j < i ==> !PmcAt(s, j)
    ensures FindPmc(s) == Some("PMC" + LeadingDigits(s[i + 3..]))
    decreases i
  {
    if i > 0 {
      PmcAtShift(s, i);
      forall j | 0 <= j < i - 1 ensures !PmcAt(s[1..], j) {
        PmcAtShift(s, j + 1);
      }
      FindPmcLeftmost(s[1..], i - 1);
      assert s[1..][i - 1 + 3..] == s[i + 3..];
    }
  }

  /** A link without "PMC<digit>" has no identifier. */
  lemma {:induction false} FindPmcAbsent(s: string)
    requires forall j :: 0 <= j < |s| ==> !PmcAt(s, j)
    ensures FindPmc(s) == None
    decreases |s|
  {
    if |s| >= 4 {
      assert !PmcAt(s, 0);
      forall j | 0 <= j < |s| - 1 ensures !PmcAt(s[1..], j) {
        PmcAtShift(s, j + 1);
      }
      FindPmcAbsent(s[1..]);
    }
  }

  /** A found identifier is "PMC" and a non-empty run of digits. */
  lemma {:induction false} FindPmcShape(s: string)
    ensures FindPmc(s).Some? ==> var id := FindPmc(s).value;
      |id| >= 4 && id[..3] == "PMC" && AllDigits(id[3..])
    decreases |s|
  {
    if |s| >= 4 && !PmcAt(s, 0) {
      FindPmcShape(s[1..]);
    } else if |s| >= 4 {
      var d := LeadingDigits(s[3..]);
      assert |d| >= 1 && d[0] == s[3];
      assert ("PMC" + d)[3..] == d;
    }
  }

  // Domains

  /** `domain_keywords`, in dictionary order. */
  function DomainKeywords(): seq<(string, seq<string>)> {
    [
    ("Radiation", ["radiation", "irradiation", "dose", "exposure", "gamma", "x-ray"]),
    ("Human Physiology", ["bone", "muscle", "cardiovascular", "immune", "microgravity", "atrophy", "density"]),
    ("Psychology", ["psychology", "behavior", "mental", "cognitive", "stress", "isolation"]),
    ("Plants", ["plant", "crop", "agriculture", "growth", "seed", "root", "leaf"]),
    ("Cell Biology", ["cell", "cellular", "mitochondria", "protein", "gene", "expression"]),
    ("Molecular Biology", ["molecular", "dna", "rna", "protein", "enzyme", "metabolism"])]
  }

  /** Some keyword occurs in the text. */
  predicate AnyKeyword(text: string, keywords: seq<string>) {
    exists k :: 0 <= k < |keywords| && Contains(text, keywords[k])
  }

  /** The first domain in the table with a keyword in the text. */
  function FirstDomain(table: seq<(string, seq<string>)>, text: string): string {
    if table == [] then "General Biology"
    else if AnyKeyword(text, table[0].1) then table[0].0
    else FirstDomain(table[1..], text)
  }

  /** `_assign_domain_from_title`. */
  function AssignDomain(title: Option<string>): string {
    match title
    case None => "Unknown"
    case Some(t) => FirstDomain(DomainKeywords(), Lower(t))
  }

  /** The domain is the first entry with a keyword in the text when there
      is one, and "General Biology" when there is none. */
  lemma {:induction false} FirstDomainSpec(table: seq<(string, seq<string>)>, text: string, k: nat)
    ensures k < |table| && AnyKeyword(text, table[k].1) && (forall j :: 0 <= j < k ==> !AnyKeyword(text, table[j].1)) ==>
      FirstDomain(table, text) == table[k].0
    ensures (forall j :: 0 <= j < |table| ==> !AnyKeyword(text, table[j].1)) ==> FirstDomain(table, text) == "General Biology"
  {
    if table != [] {
      FirstDomainSpec(table[1..], text, if k > 0 then k - 1 else 0);
      if k < |table| && AnyKeyword(text, table[k].1) && k > 0 && (forall j :: 0 <= j < k ==> !AnyKeyword(text, table[j].1)) {
        assert !AnyKeyword(text, table[0].1);
        assert table[1..][k - 1] == table[k];
      }
      if forall j :: 0 <= j < |table| ==> !AnyKeyword(text, table[j].1) {
        assert !AnyKeyword(text, table[0].1);
      }
    }
  }

  /** When entry `k` matches, the domain is one of the first `k + 1`. */
  lemma {:induction false} FirstDomainUpTo(table: seq<(string, seq<string>)>, text: string, k: nat)
    requires k < |table| && AnyKeyword(text, table[k].1)
    ensures exists j :: 0 <= j <= k && FirstDomain(table, text) == table[j].0
  {
    if !AnyKeyword(text, table[0].1) {
      assert k > 0 && table[1..][k - 1] == table[k];
      FirstDomainUpTo(table[1..], text, k - 1);
      var j :| 0 <= j <= k - 1 && FirstDomain(table[1..], text) == table[1..][j].0;
      assert FirstDomain(table, text) == table[j + 1].0;
    } else {
      assert FirstDomain(table, text) == table[0].0;
    }
  }

  /** "protein" is a Cell Biology keyword listed before Molecular Biology,
      so a title mentioning protein is never assigned Molecular Biology. */
  lemma ProteinNeverMolecular(title: string)
    requires Contains(Lower(title), "protein")
    ensures AssignDomain(Some(title)) != "Molecular Biology"
  {
    var t := Lower(title);
    assert DomainKeywords()[4].1[3] == "protein";
    assert AnyKeyword(t, DomainKeywords()[4].1);
    FirstDomainUpTo(DomainKeywords(), t, 4);
    var j :| 0 <= j <= 4 && FirstDomain(DomainKeywords(), t) == DomainKeywords()[j].0;
    assert |DomainKeywords()[j].0| != |"Molecular Biology"|;
  }

  /** The assigned domain is a listed domain, "General Biology", or
      "Unknown" exactly for a missing title. */
  lemma {:induction false} FirstDomainListed(table: seq<(string, seq<string>)>, text: string)
    ensures FirstDomain(table, text) == "General Biology" || exists j :: 0 <= j < |table| && FirstDomain(table, text) == table[j].0
  {
    if table != [] && !AnyKeyword(text, table[0].1) {
      FirstDomainListed(table[1..], text);
      if FirstDomain(table[1..], text) != "General Biology" {
        var j :| 0 <= j < |table[1..]| && FirstDomain(table[1..], text) == table[1..][j].0;
        assert table[1..][j] == table[j + 1];
      }
    } else if table != [] {
      assert FirstDomain(table, text) == table[0].0;
    }
  }

  lemma AssignDomainSpec(title: Option<string>)
    ensures AssignDomain(title) == "Unknown" <==> title.None?
    ensures title.Some? ==>
      AssignDomain(title) == "General Biology" || exists j :: 0 <= j < |DomainKeywords()| && AssignDomain(title) == DomainKeywords()[j].0
  {
    if title.Some? {
      var t := Lower(title.value);
      FirstDomainListed(DomainKeywords(), t);
      if FirstDomain(DomainKeywords(), t) != "General Biology" {
        var j :| 0 <= j < |DomainKeywords()| && FirstDomain(DomainKeywords(), t) == DomainKeywords()[j].0;
        assert |DomainKeywords()[j].0| != |"Unknown"|;
      }
    }
  }

  /** `Assigned_Domain` of a row. */
  function DomainOf(r: Row): string { AssignDomain(r.title) }

  // Confidence formulas

  function GapConfidence(related: int): int { IntMin(85, 60 + related * 2) }

  function MethodologyConfidence(methods: int): int { IntMin(80, 50 + methods * 10) }

  function CustomConfidence(concepts: int, papers: int): int { IntMin(70, 40 + concepts * 10 + papers * 2) }

  /** `min(75, 60 + recent_avg * 2)` with the average given in tenths. */
  function TrendConfidence(recentTenths: nat): real {
    var x := 60.0 + 2.0 * (recentTenths as real / 10.0);
    if x < 75.0 then x else 75.0
  }

  /** Within the guards the formulas are used under, gap confidence is
      66..80 (3 to 10 related papers), methodology confidence 70..80 (at
      least two methods), custom confidence 66..70 (at least two concepts
      and three papers), and an average of 12 or more gives trend
      confidence 75. */
  lemma ConfidenceRanges(related: int, methods: int, concepts: int, papers: int, recentTenths: nat)
    ensures 3 <= related <= 10 ==> 66 <= GapConfidence(related) <= 80
    ensures methods >= 2 ==> 70 <= MethodologyConfidence(methods) <= 80
    ensures methods >= 3 ==> MethodologyConfidence(methods) == 80
    ensures concepts >= 2 && papers >= 3 ==> 66 <= CustomConfidence(concepts, papers) <= 70
    ensures recentTenths >= 120 ==> TrendConfidence(recentTenths) == 75.0
    ensures 60.0 <= TrendConfidence(recentTenths) <= 75.0
  {
  }

  // Related papers and stored hypotheses

  /** Above the minimum similarity of 0.1. */
  predicate Relevant(s: Scored) { s.similarity > 0.1 }

  /** `_find_related_papers(query, top_k)` over papers ranked by
      similarity: the `topK` most similar, keeping those above 0.1. */
  function RelatedPapers(ranked: seq<Scored>, topK: nat): (r: seq<Scored>)
    ensures |r| <= topK
  {
    Filter(Take(ranked, topK), Relevant)
  }

  /** The stored hypothesis at position `i` of a paper's list. */
  function StoredHypothesis(text: string, paper: Row, i: int): Hypothesis {
    Hypothesis(text, "Based on research from " + CellText(paper.title), (95 - i * 5) as real, "Pre-generated",
      [Ref(paper.title, paper.link)])
  }

  /** A paper's stored hypotheses as the generator lists them. */
  function StoredHypotheses(texts: seq<string>, paper: Row): seq<Hypothesis> {
    seq(|texts|, i requires 0 <= i < |texts| => StoredHypothesis(texts[i], paper, i))
  }

  /** The paper's identifier has stored hypotheses. */
  predicate HasStored(s: Scored, stored: map<string, seq<string>>) {
    var id := ExtractPmcId(s.row.link); id.Some? && id.value in stored
  }

  /** The stored hypotheses of the first related paper that has any. */
  function FirstStored(related: seq<Scored>, stored: map<string, seq<string>>): Option<seq<Hypothesis>> {
    if related == [] then None
    else if HasStored(related[0], stored) then
      Some(StoredHypotheses(stored[ExtractPmcId(related[0].row.link).value], related[0].row))
    else FirstStored(related[1..], stored)
  }

  /** Confidence, highest first. */
  function ConfidenceGe(a: Hypothesis, b: Hypothesis): bool { a.confidence >= b.confidence }

  lemma ConfidenceGeConsistent()
    ensures TotalPreorder(ConfidenceGe)
  {
  }

  /** Stored hypotheses come with confidence 95, 90, 85, ... so they are
      already in order. */
  lemma StoredSorted(texts: seq<string>, paper: Row)
    ensures SortedBy(StoredHypotheses(texts, paper), ConfidenceGe)
    ensures forall i :: 0 <= i < |texts| ==>
      StoredHypotheses(texts, paper)[i].confidence == (95 - 5 * i) as real && StoredHypotheses(texts, paper)[i].kind == "Pre-generated"
  {
  }


  /** The stored hypotheses found are those of the first related paper
      that has any; nothing is found exactly when no related paper has
      stored hypotheses. */
  lemma {:induction false} FirstStoredSpec(related: seq<Scored>, stored: map<string, seq<string>>)
    ensures FirstStored(related, stored).None? <==> forall k :: 0 <= k < |related| ==> !HasStored(related[k], stored)
    ensures FirstStored(related, stored).Some? ==>
      exists k :: 0 <= k < |related| && HasStored(related[k], stored) &&
        (forall m :: 0 <= m < k ==> !HasStored(related[m], stored)) &&
        FirstStored(related, stored).value ==
          StoredHypotheses(stored[ExtractPmcId(related[k].row.link).value], related[k].row)
  {
    if related != [] && !HasStored(related[0], stored) {
      FirstStoredSpec(related[1..], stored);
      if FirstStored(related, stored).Some? {
        var k :| 0 <= k < |related[1..]| && HasStored(related[1..][k], stored) &&
          (forall m :: 0 <= m < k ==> !HasStored(related[1..][m], stored)) &&
          FirstStored(related[1..], stored).value ==
            StoredHypotheses(stored[ExtractPmcId(related[1..][k].row.link).value], related[1..][k].row);
        assert related[k + 1] == related[1..][k];
        assert forall m :: 1 <= m < k + 1 ==> related[m] == related[1..][m - 1];
      } else {
        assert forall k :: 1 <= k < |related| ==> related[k] == related[1..][k - 1];
      }
    }
  }

  /** `_find_related_papers(query, top_k)`: the loop over the `topK` most
      similar papers, keeping those above the threshold. */
  method FindRelatedPapers(ranked: seq<Scored>, topK: nat) returns (related: seq<Scored>)
    ensures related == RelatedPapers(ranked, topK)
  {
    var top := Take(ranked, topK);
    related := [];
    var i := 0;
    while i < |top|
      invariant 0 <= i <= |top|
      invariant related == Filter(top[..i], Relevant)
    {
      FilterStep(top, i, Relevant);
      if top[i].similarity > 0.1 {
        related := related + [top[i]];
      }
      i := i + 1;
    }
    assert top[..|top|] == top;
  }

  /** The stored hypotheses of the first `n` texts. */
  lemma StoredHypothesesAppend(texts: seq<string>, paper: Row, n: nat)
    requires n < |texts|
    ensures StoredHypotheses(texts[..n + 1], paper) == StoredHypotheses(texts[..n], paper) + [StoredHypothesis(texts[n], paper, n)]
  {
  }

  // Gap hypotheses

  function Domains(related: seq<Scored>): (ds: seq<string>)
    ensures |ds| == |related| && forall k :: 0 <= k < |related| ==> ds[k] == DomainOf(related[k].row)
  {
    seq(|related|, k requires 0 <= k < |related| => DomainOf(related[k].row))
  }

  /** Present in under 20% of the related papers: `count < total * 0.2`,
      which for the at most ten papers involved is `5 * count < total`. */
  function Underrepresented(related: seq<Scored>): string -> bool {
    d => 5 * Occurrences(Domains(related), d) < |related|
  }

  /** The underrepresented domains, in the order `Counter` lists them
      (first occurrence). */
  function UnderrepresentedDomains(related: seq<Scored>): seq<string> {
    Filter(Distinct(Domains(related)), Underrepresented(related))
  }

  /** `domain and domain != 'Unknown'`. */
  predicate Known(d: string) { d != "" && d != "Unknown" }

  /** The domains a gap hypothesis is attempted for. */
  function GapDomains(related: seq<Scored>): seq<string> {
    Filter(UnderrepresentedDomains(related), Known)
  }

  function InDomain(d: string): Scored -> bool {
    (s: Scored) => DomainOf(s.row) == d
  }

  function Refs(ps: seq<Scored>): (rs: seq<Ref>)
    ensures |rs| == |ps|
  {
    seq(|ps|, k requires 0 <= k < |ps| => Ref(ps[k].row.title, ps[k].row.link))
  }

  const GapTail := " may reveal novel biological mechanisms and therapeutic targets that are currently underexplored in space biology research."
  const GapEvidenceTail := ". Current studies focus primarily on isolated effects rather than integrated approaches."

  function GapText(query: string, domain: string): string {
    "Integration of " + Lower(domain) + " research with " + Lower(query) + GapTail
  }

  function GapEvidence(query: string, domain: string): string {
    "Limited research exists combining " + domain + " with " + query + GapEvidenceTail
  }

  /** The gap hypothesis for a domain with related papers. */
  function GapHypothesis(query: string, domain: string, related: seq<Scored>): Hypothesis {
    Hypothesis(GapText(query, domain), GapEvidence(query, domain),
      GapConfidence(|related|) as real, "Gap-based", Refs(Take(Filter(related, InDomain(domain)), 3)))
  }

  /** `_create_gap_hypothesis`: nothing when no related paper is in the
      domain. */
  function CreateGapHypothesis(query: string, domain: string, related: seq<Scored>): Option<Hypothesis> {
    if Filter(related, InDomain(domain)) == [] then None else Some(GapHypothesis(query, domain, related))
  }

  /** What `_generate_gap_based_hypotheses` returns for its related papers. */
  function GapHypotheses(query: string, related: seq<Scored>): seq<Hypothesis> {
    if |related| < 3 then [] else GapsFor(query, GapDomains(related), related)
  }

  /** One gap hypothesis per domain, in order. */
  function GapsFor(query: string, ds: seq<string>, related: seq<Scored>): (hs: seq<Hypothesis>)
    ensures |hs| == |ds|
  {
    seq(|ds|, k requires 0 <= k < |ds| => GapHypothesis(query, ds[k], related))
  }

  lemma GapsForAppend(query: string, ds: seq<string>, d: string, related: seq<Scored>)
    ensures GapsFor(query, ds + [d], related) == GapsFor(query, ds, related) + [GapHypothesis(query, d, related)]
  {
  }

  /** The gap domains are exactly the related domains below 20% that are
      neither empty nor "Unknown", each once; each has a related paper, so
      no hypothesis attempted for them is dropped. */
  lemma GapDomainsSpec(related: seq<Scored>, d: string)
    ensures d in GapDomains(related) <==>
      d in Domains(related) && d != "" && d != "Unknown" && 5 * Occurrences(Domains(related), d) < |related|
    ensures forall i, j :: 0 <= i < j < |GapDomains(related)| ==> GapDomains(related)[i] != GapDomains(related)[j]
    ensures d in GapDomains(related) ==> Filter(related, InDomain(d)) != []
  {
    var ds := Distinct(Domains(related));
    var low := UnderrepresentedDomains(related);
    FilterMembership(ds, Underrepresented(related), d);
    FilterMembership(low, Known, d);
    GapDistinct(ds, Underrepresented(related));
    GapDistinct(low, Known);
    if d in GapDomains(related) {
      var k :| 0 <= k < |related| && Domains(related)[k] == d;
      FilterMembership(related, InDomain(d), related[k]);
    }
  }

  lemma {:induction false} GapDistinct(ds: seq<string>, p: string -> bool)
    requires forall i, j :: 0 <= i < j < |ds| ==> ds[i] != ds[j]
    ensures forall i, j :: 0 <= i < j < |Filter(ds, p)| ==> Filter(ds, p)[i] != Filter(ds, p)[j]
  {
    if ds != [] {
      GapDistinct(ds[1..], p);
      FilterMembership(ds[1..], p, ds[0]);
    }
  }

  /** One round of the gap loop: a known domain, which is a gap domain,
      gets its hypothesis; any other is skipped. */
  method GapStep(query: string, domain: string, related: seq<Scored>, hs: seq<Hypothesis>, ghost done: seq<string>)
    returns (hs': seq<Hypothesis>)
    requires hs == GapsFor(query, done, related)
    requires Known(domain) ==> domain in GapDomains(related)
    ensures hs' == GapsFor(query, done + Filter([domain], Known), related)
  {
    hs' := hs;
    if domain != "" && domain != "Unknown" {
      GapDomainsSpec(related, domain);
      GapsForAppend(query, done, domain, related);
      var h := CreateGapHypothesis(query, domain, related);
      if h.Some? {
        hs' := hs + [h.value];
      } else {
        assert false;
      }
      assert Filter([domain], Known) == [domain];
    } else {
      assert Filter([domain], Known) == [];
      assert done + [] == done;
    }
  }

  /** `_generate_gap_based_hypotheses`: the gap hypotheses of the ten most
      similar papers above the threshold. */
  method GenerateGapHypotheses(query: string, ranked: seq<Scored>) returns (hs: seq<Hypothesis>)
    ensures hs == GapHypotheses(query, RelatedPapers(ranked, 10))
  {
    var related := FindRelatedPapers(ranked, 10);
    hs := [];
    if |related| < 3 {
      return;
    }
    var low := UnderrepresentedDomains(related);
    var i := 0;
    while i < |low|
      invariant 0 <= i <= |low|
      invariant hs == GapsFor(query, Filter(low[..i], Known), related)
    {
      var domain := low[i];
      FilterAppend(low[..i], [domain], Known);
      PrefixStep(low, i);
      FilterMembership(low, Known, domain);
      hs := GapStep(query, domain, related, hs, Filter(low[..i], Known));
      i := i + 1;
    }
    assert low[..|low|] == low;
  }

  /** Gap hypotheses need three related papers; there is one per gap
      domain, in order. */
  lemma GapHypothesesSpec(query: string, related: seq<Scored>)
    ensures |related| < 3 ==> GapHypotheses(query, related) == []
    ensures |GapHypotheses(query, related)| == if |related| < 3 then 0 else |GapDomains(related)|
    ensures |related| >= 3 ==> forall k :: 0 <= k < |GapDomains(related)| ==>
      GapHypotheses(query, related)[k] == GapHypothesis(query, GapDomains(related)[k], related)
  {
    if |related| >= 3 {
      GapsForSpec(query, GapDomains(related), related);
    }
  }

  lemma GapsForSpec(query: string, ds: seq<string>, related: seq<Scored>)
    ensures forall k :: 0 <= k < |ds| ==> GapsFor(query, ds, related)[k] == GapHypothesis(query, ds[k], related)
  {
  }

  /** A gap hypothesis carries the capped confidence of the related count
      and cites the first three related papers of its domain. */
  lemma GapHypothesisSpec(query: string, d: string, related: seq<Scored>)
    ensures GapHypothesis(query, d, related).confidence == IntMin(85, 60 + 2 * |related|) as real
    ensures GapHypothesis(query, d, related).kind == "Gap-based"
    ensures var ps := Filter(related, InDomain(d)); var rs := GapHypothesis(query, d, related).relatedPapers;
      |rs| == IntMin(3, |ps|) && forall i :: 0 <= i < |rs| ==> rs[i] == Ref(ps[i].row.title, ps[i].row.link)
  {
  }

  // Methodology hypotheses

  function MethodKeywords(): seq<string> {
    [
    "microgravity", "simulation", "ground-based", "spaceflight", "analog",
    "cell culture", "animal model", "human study", "clinical trial",
    "biomarker", "gene expression", "protein analysis", "imaging",
    "exercise", "nutrition", "pharmaceutical", "radiation"]
  }

  /** A paper naming at least two methods. */
  datatype Combination = Combination(methods: seq<string>, paper: Option<string>, domain: string)

  /** `(title + ' ' + abstract).lower()`, the abstract being the title
      again. */
  function PaperText(s: Scored): string {
    var t := match s.row.title case None => "" case Some(x) => x;
    Lower(t + " " + t)
  }

  function Mentioned(text: string): string -> bool {
    m => Contains(text, m)
  }

  /** The methods of the list that the text names, in list order. */
  function FoundMethods(text: string, keywords: seq<string>): seq<string> {
    Filter(keywords, Mentioned(text))
  }

  /** The paper's combination, if it names two methods or more. */
  function CombinationOf(s: Scored, keywords: seq<string>): seq<Combination> {
    var found := FoundMethods(PaperText(s), keywords);
    if |found| >= 2 then [Combination(found, s.row.title, DomainOf(s.row))] else []
  }

  /** The combinations of the papers, in paper order. */
  function Combinations(papers: seq<Scored>, keywords: seq<string>): seq<Combination> {
    if papers == [] then []
    else Combinations(papers[..|papers| - 1], keywords) + CombinationOf(papers[|papers| - 1], keywords)
  }

  /** `tuple(sorted(methods))`: two method lists give the same key exactly
      when one is a reordering of the other. */
  function Key(c: Combination): multiset<string> { multiset(c.methods) }

  /** The combinations whose key is not yet seen, each key kept once. */
  function Unseen(cs: seq<Combination>, seen: set<multiset<string>>): seq<Combination> {
    if cs == [] then []
    else if Key(cs[0]) in seen then Unseen(cs[1..], seen)
    else [cs[0]] + Unseen(cs[1..], seen + {Key(cs[0])})
  }

  function UniqueCombinations(cs: seq<Combination>): seq<Combination> { Unseen(cs, {}) }

  /** `_analyze_method_combinations`. */
  method AnalyzeMethodCombinations(papers: seq<Scored>, keywords: seq<string>) returns (unique: seq<Combination>)
    ensures unique == UniqueCombinations(Combinations(papers, keywords))
  {
    var combinations: seq<Combination> := [];
    var i := 0;
    while i < |papers|
      invariant 0 <= i <= |papers|
      invariant combinations == Combinations(papers[..i], keywords)
    {
      var found := FoundMethods(PaperText(papers[i]), keywords);
      if |found| >= 2 {
        combinations := combinations + [Combination(found, papers[i].row.title, DomainOf(papers[i].row))];
      }
      CombinationsStep(papers, keywords, i);
      i := i + 1;
    }
    assert papers[..|papers|] == papers;
    unique := [];
    var seen: set<multiset<string>> := {};
    var j := 0;
    while j < |combinations|
      invariant 0 <= j <= |combinations|
      invariant unique + Unseen(combinations[j..], seen) == UniqueCombinations(combinations)
    {
      var combo := combinations[j];
      UnseenStep(combinations, j, seen);
      var key := Key(combo);
      if key !in seen {
        seen := seen + {key};
        unique := unique + [combo];
      }
      j := j + 1;
    }
  }

  /** One more paper of a prefix. */
  lemma CombinationsStep(papers: seq<Scored>, keywords: seq<string>, i: nat)
    requires i < |papers|
    ensures Combinations(papers[..i + 1], keywords) == Combinations(papers[..i], keywords) + CombinationOf(papers[i], keywords)
  {
    assert papers[..i + 1][..i] == papers[..i];
  }

  /** One more combination of a suffix. */
  lemma UnseenStep(cs: seq<Combination>, j: nat, seen: set<multiset<string>>)
    requires j < |cs|
    ensures Unseen(cs[j..], seen) ==
      if Key(cs[j]) in seen then Unseen(cs[j + 1..], seen) else [cs[j]] + Unseen(cs[j + 1..], seen + {Key(cs[j])})
  {
    assert cs[j..][1..] == cs[j + 1..];
  }

  /** No combination before `cs[k]` has its key. */
  predicate FirstOfKey(cs: seq<Combination>, k: nat)
    requires k < |cs|
  {
    forall m :: 0 <= m < k ==> Key(cs[m]) != Key(cs[k])
  }

  /** A combination first of its key in `cs[1..]` and keyed unlike `cs[0]`
      is first of its key in `cs`. */
  lemma FirstOfKeyCons(cs: seq<Combination>, k: nat)
    requires k + 1 < |cs| && FirstOfKey(cs[1..], k) && Key(cs[0]) != Key(cs[k + 1])
    ensures FirstOfKey(cs, k + 1)
  {
    forall m | 0 <= m < k + 1 ensures Key(cs[m]) != Key(cs[k + 1]) {
      if m > 0 {
        assert cs[m] == cs[1..][m - 1];
      }
    }
  }

  /** Every kept combination is a combination of the input whose key was
      not seen before and appears at no earlier position. */
  lemma {:induction false} UnseenSound(cs: seq<Combination>, seen: set<multiset<string>>, i: nat)
    requires i < |Unseen(cs, seen)|
    ensures exists k :: 0 <= k < |cs| && Unseen(cs, seen)[i] == cs[k] && Key(cs[k]) !in seen && FirstOfKey(cs, k)
  {
    var rest := cs[1..];
    if Key(cs[0]) in seen {
      UnseenSound(rest, seen, i);
      var k :| 0 <= k < |rest| && Unseen(rest, seen)[i] == rest[k] && Key(rest[k]) !in seen && FirstOfKey(rest, k);
      FirstOfKeyCons(cs, k);
      assert Unseen(cs, seen)[i] == cs[k + 1];
    } else if i == 0 {
      assert Unseen(cs, seen)[0] == cs[0];
    } else {
      var seen' := seen + {Key(cs[0])};
      UnseenSound(rest, seen', i - 1);
      var k :| 0 <= k < |rest| && Unseen(rest, seen')[i - 1] == rest[k] && Key(rest[k]) !in seen' && FirstOfKey(rest, k);
      FirstOfKeyCons(cs, k);
      assert Unseen(cs, seen)[i] == cs[k + 1];
    }
  }

  /** Every key of the input that was not seen before is kept. */
  lemma {:induction false} UnseenComplete(cs: seq<Combination>, seen: set<multiset<string>>, k: nat)
    requires k < |cs| && Key(cs[k]) !in seen
    ensures exists i :: 0 <= i < |Unseen(cs, seen)| && Key(Unseen(cs, seen)[i]) == Key(cs[k])
  {
    var rest := cs[1..];
    if Key(cs[0]) !in seen && Key(cs[k]) == Key(cs[0]) {
      assert Key(Unseen(cs, seen)[0]) == Key(cs[k]);
    } else {
      var seen' := if Key(cs[0]) in seen then seen else seen + {Key(cs[0])};
      assert cs[k] == rest[k - 1];
      UnseenComplete(rest, seen', k - 1);
      var i :| 0 <= i < |Unseen(rest, seen')| && Key(Unseen(rest, seen')[i]) == Key(rest[k - 1]);
      var i' := if Key(cs[0]) in seen then i else i + 1;
      assert Unseen(cs, seen)[i'] == Unseen(rest, seen')[i];
    }
  }

  /** Kept keys are pairwise different. */
  lemma {:induction false} UnseenDistinct(cs: seq<Combination>, seen: set<multiset<string>>)
    ensures forall i :: 0 <= i < |Unseen(cs, seen)| ==> Key(Unseen(cs, seen)[i]) !in seen
    ensures forall i, j :: 0 <= i < j < |Unseen(cs, seen)| ==> Key(Unseen(cs, seen)[i]) != Key(Unseen(cs, seen)[j])
  {
    if cs != [] {
      var seen' := if Key(cs[0]) in seen then seen else seen + {Key(cs[0])};
      UnseenDistinct(cs[1..], seen');
    }
  }

  /** The unique combinations: no key twice, each the first paper with its
      key, and every key of the input represented. */
  lemma UniqueCombinationsSpec(cs: seq<Combination>)
    ensures var u := UniqueCombinations(cs);
      (forall i, j :: 0 <= i < j < |u| ==> Key(u[i]) != Key(u[j])) &&
      (forall i :: 0 <= i < |u| ==> exists k :: 0 <= k < |cs| && u[i] == cs[k] && FirstOfKey(cs, k)) &&
      (forall k :: 0 <= k < |cs| ==> exists i :: 0 <= i < |u| && Key(u[i]) == Key(cs[k]))
  {
    var u := UniqueCombinations(cs);
    UnseenDistinct(cs, {});
    forall i | 0 <= i < |u| ensures exists k :: 0 <= k < |cs| && u[i] == cs[k] && FirstOfKey(cs, k) {
      UnseenSound(cs, {}, i);
    }
    forall k | 0 <= k < |cs| ensures exists i :: 0 <= i < |u| && Key(u[i]) == Key(cs[k]) {
      UnseenComplete(cs, {}, k);
    }
  }

  /** Each combination names at least two methods. */
  lemma {:induction false} CombinationsSpec(papers: seq<Scored>, keywords: seq<string>)
    ensures forall i :: 0 <= i < |Combinations(papers, keywords)| ==> |Combinations(papers, keywords)[i].methods| >= 2
  {
    if papers != [] {
      CombinationsSpec(papers[..|papers| - 1], keywords);
    }
  }

  lemma {:induction false} UnseenFrom(cs: seq<Combination>, seen: set<multiset<string>>, i: nat)
    requires i < |Unseen(cs, seen)|
    ensures Unseen(cs, seen)[i] in cs
  {
    if Key(cs[0]) in seen {
      UnseenFrom(cs[1..], seen, i);
    } else if i > 0 {
      UnseenFrom(cs[1..], seen + {Key(cs[0])}, i - 1);
    }
  }

  const MethodologyTail := " research may provide novel insights into biological mechanisms that cannot be achieved through single-method approaches."
  const MethodologyEvidenceHead := "Current research primarily uses isolated methodologies. Integration of "
  const MethodologyEvidenceTail := " approaches represents an underexplored research direction."

  function MethodologyText(query: string, methodText: string): string {
    "Combining " + methodText + " methodologies in " + Lower(query) + MethodologyTail
  }

  function MethodologyEvidence(methodText: string): string {
    MethodologyEvidenceHead + methodText + MethodologyEvidenceTail
  }

  /** `_create_methodology_hypothesis`. */
  function MethodologyHypothesis(query: string, c: Combination): Hypothesis {
    Hypothesis(MethodologyText(query, Join(c.methods, " and ")), MethodologyEvidence(Join(c.methods, " and ")),
      MethodologyConfidence(|c.methods|) as real, "Methodology-driven", [Ref(c.paper, Some("#"))])
  }

  /** A methodology hypothesis for two methods or more has confidence
      70..80 and cites its paper with the placeholder link. */
  lemma MethodologyHypothesisSpec(query: string, c: Combination)
    requires |c.methods| >= 2
    ensures 70.0 <= MethodologyHypothesis(query, c).confidence <= 80.0
    ensures MethodologyHypothesis(query, c).kind == "Methodology-driven"
    ensures MethodologyHypothesis(query, c).relatedPapers == [Ref(c.paper, Some("#"))]
  {
  }

  /** One methodology hypothesis per combination, in order. */
  function MethodologyFrom(query: string, cs: seq<Combination>): (hs: seq<Hypothesis>)
    ensures |hs| == |cs|
  {
    seq(|cs|, k requires 0 <= k < |cs| => MethodologyHypothesis(query, cs[k]))
  }

  lemma MethodologyFromAppend(query: string, cs: seq<Combination>, c: Combination)
    ensures MethodologyFrom(query, cs + [c]) == MethodologyFrom(query, cs) + [MethodologyHypothesis(query, c)]
  {
  }

  lemma MethodologyFromIndex(query: string, cs: seq<Combination>)
    ensures forall k :: 0 <= k < |cs| ==> MethodologyFrom(query, cs)[k] == MethodologyHypothesis(query, cs[k])
  {
  }

  /** What `_generate_methodology_hypotheses` returns for its related
      papers: hypotheses for the first two unique combinations. */
  function MethodologyHypotheses(query: string, related: seq<Scored>): seq<Hypothesis> {
    MethodologyOf(query, related, MethodKeywords())
  }

  /** The same for any list of method keywords. */
  function MethodologyOf(query: string, related: seq<Scored>, keywords: seq<string>): seq<Hypothesis> {
    if |related| < 5 then []
    else MethodologyFrom(query, Take(UniqueCombinations(Combinations(related, keywords)), 2))
  }

  /** At most two methodology hypotheses, none with fewer than five related
      papers, each for one of the unique combinations of those papers, in
      order. */
  lemma MethodologyHypothesesSpec(query: string, related: seq<Scored>, keywords: seq<string>)
    ensures |MethodologyOf(query, related, keywords)| <= 2
    ensures |related| < 5 ==> MethodologyOf(query, related, keywords) == []
    ensures |related| >= 5 ==>
      var u := UniqueCombinations(Combinations(related, keywords));
      |MethodologyOf(query, related, keywords)| == IntMin(2, |u|) &&
      forall k :: 0 <= k < |MethodologyOf(query, related, keywords)| ==>
        MethodologyOf(query, related, keywords)[k] == MethodologyHypothesis(query, u[k]) && |u[k].methods| >= 2
  {
    if |related| >= 5 {
      var cs := Combinations(related, keywords);
      var t := Take(UniqueCombinations(cs), 2);
      CombinationsSpec(related, keywords);
      forall k | 0 <= k < |t| ensures |t[k].methods| >= 2 {
        UnseenFrom(cs, {}, k);
      }
      MethodologyFromIndex(query, t);
    }
  }

  /** `_generate_methodology_hypotheses`: hypotheses for the first two
      unique method combinations of the fifteen most similar papers. */
  method GenerateMethodologyHypotheses(query: string, ranked: seq<Scored>) returns (hs: seq<Hypothesis>)
    ensures hs == MethodologyHypotheses(query, RelatedPapers(ranked, 15))
  {
    var related := FindRelatedPapers(ranked, 15);
    hs := [];
    if |related| < 5 {
      return;
    }
    var combinations := AnalyzeMethodCombinations(related, MethodKeywords());
    var top := Take(combinations, 2);
    var j := 0;
    while j < |top|
      invariant 0 <= j <= |top|
      invariant hs == MethodologyFrom(query, top[..j])
    {
      MethodologyFromAppend(query, top[..j], top[j]);
      PrefixStep(top, j);
      hs := hs + [MethodologyHypothesis(query, top[j])];
      j := j + 1;
    }
    assert top[..|top|] == top;
  }

  // Trend hypotheses

  /** A simulated publication trend; the averages are in tenths. */
  datatype Trend = Trend(trend: string, recentTenths: nat, earlierTenths: nat)

  /** The trend of a domain with `count` papers: increasing from 20
      papers (averages `count * 0.6` and `count * 0.4`), stable from 10
      (both `count * 0.5`), none below. */
  function TrendOf(count: nat): Option<Trend> {
    if count >= 20 then Some(Trend("increasing", 6 * count, 4 * count))
    else if count >= 10 then Some(Trend("stable", 5 * count, 5 * count))
    else None
  }

  /** The `Assigned_Domain` column of the table. */
  function TableDomains(rows: seq<Row>): (ds: seq<string>)
    ensures |ds| == |rows|
  {
    seq(|rows|, k requires 0 <= k < |rows| => DomainOf(rows[k]))
  }

  /** The trends recorded for `keys`, taken in order, with counts from
      `domains`. */
  function TrendsOver(keys: seq<string>, domains: seq<string>): map<string, Trend> {
    if keys == [] then map[]
    else
      var m := TrendsOver(keys[..|keys| - 1], domains);
      var d := keys[|keys| - 1];
      match TrendOf(Occurrences(domains, d))
      case None => m
      case Some(t) => m[d := t]
  }

  /** What `_analyze_publication_trends` returns: `value_counts` lists each
      domain of the table once (no domain is missing: every title gets
      one). */
  function PublicationTrends(rows: seq<Row>): map<string, Trend> {
    TrendsOver(Distinct(TableDomains(rows)), TableDomains(rows))
  }

  /** `_analyze_publication_trends`. */
  method AnalyzePublicationTrends(rows: seq<Row>) returns (trends: map<string, Trend>)
    ensures trends == PublicationTrends(rows)
  {
    var domains := TableDomains(rows);
    var counts := Distinct(domains);
    trends := map[];
    var i := 0;
    while i < |counts|
      invariant 0 <= i <= |counts|
      invariant trends == TrendsOver(counts[..i], domains)
    {
      var domain := counts[i];
      var count := Occurrences(domains, domain);
      assert counts[..i + 1][..i] == counts[..i];
      if count >= 20 {
        trends := trends[domain := Trend("increasing", 6 * count, 4 * count)];
      } else if count >= 10 {
        trends := trends[domain := Trend("stable", 5 * count, 5 * count)];
      }
      i := i + 1;
    }
    assert counts[..|counts|] == counts;
  }

  /** A key has a trend exactly when it is listed and counted ten times or
      more, and the trend is the one its count gives. */
  lemma {:induction false} TrendsOverSpec(keys: seq<string>, domains: seq<string>, d: string)
    ensures d in TrendsOver(keys, domains) <==> d in keys && Occurrences(domains, d) >= 10
    ensures d in TrendsOver(keys, domains) ==> TrendOf(Occurrences(domains, d)) == Some(TrendsOver(keys, domains)[d])
  {
    if keys != [] {
      var init := keys[..|keys| - 1];
      TrendsOverSpec(init, domains, d);
      FrontLast(keys);
      assert d in keys <==> d in init || d == keys[|keys| - 1];
    }
  }

  /** A domain of the table has a trend exactly when it has ten papers or
      more; it is increasing exactly from twenty, and the two averages
      always add up to the count. */
  lemma PublicationTrendsSpec(rows: seq<Row>, d: string)
    ensures var count := Occurrences(TableDomains(rows), d);
      (d in PublicationTrends(rows) <==> count >= 10) &&
      (d in PublicationTrends(rows) ==>
        (PublicationTrends(rows)[d].trend == "increasing" <==> count >= 20) &&
        PublicationTrends(rows)[d].recentTenths + PublicationTrends(rows)[d].earlierTenths == 10 * count &&
        PublicationTrends(rows)[d].recentTenths >= 5 * count)
  {
    TrendsOverSpec(Distinct(TableDomains(rows)), TableDomains(rows), d);
  }

  /** The keywords of `_extract_domains_from_query` and their domains. */
  function DomainMapping(): seq<(string, string)> {
    [
    ("radiation", "Radiation"), ("bone", "Human Physiology"), ("muscle", "Human Physiology"),
    ("cardiovascular", "Human Physiology"), ("immune", "Human Physiology"), ("psychology", "Psychology"),
    ("mental", "Psychology"), ("behavior", "Psychology"), ("plant", "Plants"), ("agriculture", "Plants"),
    ("crop", "Plants"), ("microgravity", "Human Physiology"), ("space", "Human Physiology")]
  }

  /** The domains of the table entries whose keyword the text contains. */
  function MappedDomains(table: seq<(string, string)>, text: string): set<string> {
    if table == [] then {}
    else
      MappedDomains(table[..|table| - 1], text) +
      (if Contains(text, table[|table| - 1].0) then {table[|table| - 1].1} else {})
  }

  /** The set `_extract_domains_from_query` returns. */
  function QueryDomains(query: string): set<string> { MappedDomains(DomainMapping(), Lower(query)) }

  /** A domain is found exactly when the text names one of its keywords. */
  lemma {:induction false} MappedDomainsSpec(table: seq<(string, string)>, text: string, d: string)
    ensures d in MappedDomains(table, text) <==> exists k :: 0 <= k < |table| && table[k].1 == d && Contains(text, table[k].0)
  {
    if table != [] {
      var init := table[..|table| - 1];
      MappedDomainsSpec(init, text, d);
      if d in MappedDomains(table, text) && d !in MappedDomains(init, text) {
        assert table[|table| - 1].1 == d;
      }
      assert forall k :: 0 <= k < |init| ==> init[k] == table[k];
    }
  }

  /** Only the four domains of the mapping can be found. */
  lemma {:induction false} MappedDomainsWithin(table: seq<(string, string)>, text: string, within: set<string>)
    requires forall k :: 0 <= k < |table| ==> table[k].1 in within
    ensures MappedDomains(table, text) <= within
  {
    if table != [] {
      MappedDomainsWithin(table[..|table| - 1], text, within);
    }
  }

  lemma QueryDomainsSpec(query: string, d: string)
    ensures d in QueryDomains(query) <==>
      exists k :: 0 <= k < |DomainMapping()| && DomainMapping()[k].1 == d && Contains(Lower(query), DomainMapping()[k].0)
    ensures QueryDomains(query) <= {"Radiation", "Human Physiology", "Psychology", "Plants"}
  {
    MappedDomainsSpec(DomainMapping(), Lower(query), d);
    MappedDomainsWithin(DomainMapping(), Lower(query), {"Radiation", "Human Physiology", "Psychology", "Plants"});
  }

  /** `_extract_domains_from_query`. */
  method ExtractDomainsFromQuery(query: string) returns (domains: set<string>)
    ensures domains == QueryDomains(query)
  {
    var queryLower := Lower(query);
    domains := {};
    var i := 0;
    while i < |DomainMapping()|
      invariant 0 <= i <= |DomainMapping()|
      invariant domains == MappedDomains(DomainMapping()[..i], queryLower)
    {
      var entry := DomainMapping()[i];
      assert DomainMapping()[..i + 1][..i] == DomainMapping()[..i];
      if Contains(queryLower, entry.0) {
        domains := domains + {entry.1};
      }
      i := i + 1;
    }
    assert DomainMapping()[..|DomainMapping()|] == DomainMapping();
  }

  const TrendTail := " within this domain may yield breakthrough discoveries in space biology."
  const TrendEvidenceTail := " earlier) suggests growing interest and potential for novel applications."

  /** The `:.1f` rendering of a non-negative number given in tenths. */
  function Tenths(t: nat): (s: string)
    ensures |s| >= 3 && s[|s| - 2] == '.' && AllDigits(s[..|s| - 2]) && IsDigit(s[|s| - 1])
  {
    NatToString(t / 10) + "." + [DigitChar(t % 10)]
  }

  /** The rendering reads back as the number: the digits before the point
      give the whole part, the one after it the tenths. */
  lemma TenthsValue(t: nat)
    ensures var s := Tenths(t); 10 * DigitsValue(s[..|s| - 2]) + (s[|s| - 1] as int - '0' as int) == t
  {
    var s := Tenths(t);
    assert s[..|s| - 2] == NatToString(t / 10);
    NatToStringValue(t / 10);
  }

  function TrendText(query: string, domain: string): string {
    "Given the increasing research activity in " + Lower(domain) + ", novel applications of " + Lower(query) + TrendTail
  }

  function TrendEvidence(domain: string, t: Trend): string {
    "Recent increase in " + domain + " research (avg " + Tenths(t.recentTenths) + " vs " + Tenths(t.earlierTenths) +
    TrendEvidenceTail
  }

  /** `_create_trend_hypothesis`. */
  function TrendHypothesis(query: string, domain: string, t: Trend): Hypothesis {
    Hypothesis(TrendText(query, domain), TrendEvidence(domain, t), TrendConfidence(t.recentTenths), "Trend-based", [])
  }

  /** A trend hypothesis cites no paper; for a domain of twenty papers or
      more its confidence is 75. */
  lemma TrendHypothesisSpec(query: string, domain: string, t: Trend)
    ensures TrendHypothesis(query, domain, t).kind == "Trend-based"
    ensures TrendHypothesis(query, domain, t).relatedPapers == []
    ensures t.recentTenths >= 120 ==> TrendHypothesis(query, domain, t).confidence == 75.0
  {
  }

  /** The domain has an increasing trend. */
  function Increasing(trends: map<string, Trend>): string -> bool {
    d => d in trends && trends[d].trend == "increasing"
  }

  /** One trend hypothesis per domain, in order. */
  function TrendsFor(query: string, ds: seq<string>, trends: map<string, Trend>): (hs: seq<Hypothesis>)
    requires forall k :: 0 <= k < |ds| ==> ds[k] in trends
    ensures |hs| == |ds|
  {
    seq(|ds|, k requires 0 <= k < |ds| => TrendHypothesis(query, ds[k], trends[ds[k]]))
  }

  /** What `_generate_trend_based_hypotheses` returns when it visits the
      query domains in `order`. */
  function TrendHypotheses(query: string, order: seq<string>, trends: map<string, Trend>): seq<Hypothesis> {
    TrendsFor(query, Filter(order, Increasing(trends)), trends)
  }

  lemma TrendsForAppend(query: string, ds: seq<string>, d: string, trends: map<string, Trend>)
    requires forall k :: 0 <= k < |ds| ==> ds[k] in trends
    requires d in trends
    ensures TrendsFor(query, ds + [d], trends) == TrendsFor(query, ds, trends) + [TrendHypothesis(query, d, trends[d])]
  {
  }

  /** Visiting the query domains once each, the trend hypotheses are one
      per query domain with twenty papers or more in the table, each with
      confidence 75 and no cited paper. */
  lemma TrendHypothesesSpec(query: string, order: seq<string>, rows: seq<Row>)
    requires forall d :: d in order <==> d in QueryDomains(query)
    ensures var trends := PublicationTrends(rows);
      forall d :: d in Filter(order, Increasing(trends)) <==>
        d in QueryDomains(query) && Occurrences(TableDomains(rows), d) >= 20
  {
    var trends := PublicationTrends(rows);
    var inc := Filter(order, Increasing(trends));
    forall d ensures d in inc <==> d in QueryDomains(query) && Occurrences(TableDomains(rows), d) >= 20 {
      FilterMembership(order, Increasing(trends), d);
      PublicationTrendsSpec(rows, d);
    }
  }

  /** Whatever the order, every trend hypothesis has confidence 75 and
      cites no paper. */
  lemma TrendBounds(query: string, order: seq<string>, rows: seq<Row>)
    ensures forall h :: h in TrendHypotheses(query, order, PublicationTrends(rows)) ==>
      h.confidence == 75.0 && h.kind == "Trend-based" && h.relatedPapers == []
  {
    var trends := PublicationTrends(rows);
    var inc := Filter(order, Increasing(trends));
    var hs := TrendHypotheses(query, order, trends);
    forall h | h in hs ensures h.confidence == 75.0 && h.kind == "Trend-based" && h.relatedPapers == [] {
      var k :| 0 <= k < |hs| && hs[k] == h;
      var d := inc[k];
      FilterMembership(order, Increasing(trends), d);
      PublicationTrendsSpec(rows, d);
      TrendHypothesisSpec(query, d, trends[d]);
    }
  }

  /** `_generate_trend_based_hypotheses`, visiting the query domains in
      `order`: the iteration order of the set, which Python leaves
      unspecified. */
  method GenerateTrendHypotheses(query: string, rows: seq<Row>, order: seq<string>) returns (hs: seq<Hypothesis>)
    requires forall d :: d in order <==> d in QueryDomains(query)
    ensures hs == TrendHypotheses(query, order, PublicationTrends(rows))
  {
    var trends := AnalyzePublicationTrends(rows);
    var queryDomains := ExtractDomainsFromQuery(query);
    hs := [];
    var i := 0;
    while i < |order|
      invariant 0 <= i <= |order|
      invariant hs == TrendsFor(query, Filter(order[..i], Increasing(trends)), trends)
    {
      var domain := order[i];
      assert domain in queryDomains;
      FilterAppend(order[..i], [domain], Increasing(trends));
      PrefixStep(order, i);
      hs := TrendStep(query, domain, trends, hs, Filter(order[..i], Increasing(trends)));
      i := i + 1;
    }
    assert order[..|order|] == order;
  }

  /** One round of the trend loop: a domain with an increasing trend gets
      its hypothesis; any other is skipped. */
  method TrendStep(query: string, domain: string, trends: map<string, Trend>, hs: seq<Hypothesis>, ghost done: seq<string>)
    returns (hs': seq<Hypothesis>)
    requires forall k :: 0 <= k < |done| ==> done[k] in trends
    requires hs == TrendsFor(query, done, trends)
    ensures forall k :: 0 <= k < |done + Filter([domain], Increasing(trends))| ==>
      (done + Filter([domain], Increasing(trends)))[k] in trends
    ensures hs' == TrendsFor(query, done + Filter([domain], Increasing(trends)), trends)
  {
    if domain in trends && trends[domain].trend == "increasing" {
      assert Filter([domain], Increasing(trends)) == [domain];
      TrendsForAppend(query, done, domain, trends);
      hs' := hs + [TrendHypothesis(query, domain, trends[domain])];
    } else {
      assert Filter([domain], Increasing(trends)) == [];
      assert done + [] == done;
      hs' := hs;
    }
  }

  // Custom query hypotheses

  /** The concepts `_extract_key_concepts` looks for. */
  function ConceptKeywords(): seq<string> {
    [
    "microgravity", "radiation", "bone", "muscle", "cardiovascular",
    "immune", "psychology", "plant", "cell", "gene", "protein",
    "exercise", "nutrition", "pharmaceutical", "biomarker"]
  }

  /** The concepts the lower-cased query names, in list order. */
  function KeyConcepts(query: string): seq<string> {
    Filter(ConceptKeywords(), Mentioned(Lower(query)))
  }

  /** `_extract_key_concepts`. */
  method ExtractKeyConcepts(query: string) returns (concepts: seq<string>)
    ensures concepts == KeyConcepts(query)
  {
    var queryLower := Lower(query);
    concepts := [];
    var i := 0;
    while i < |ConceptKeywords()|
      invariant 0 <= i <= |ConceptKeywords()|
      invariant concepts == Filter(ConceptKeywords()[..i], Mentioned(queryLower))
    {
      var keyword := ConceptKeywords()[i];
      FilterStep(ConceptKeywords(), i, Mentioned(queryLower));
      if Contains(queryLower, keyword) {
        concepts := concepts + [keyword];
      }
      i := i + 1;
    }
    assert ConceptKeywords()[..|ConceptKeywords()|] == ConceptKeywords();
  }

  /** `concept.lower() in str(paper['Title']).lower()`. */
  function ConceptMatch(concept: string): Row -> bool {
    (r: Row) => Contains(Lower(CellText(r.title)), Lower(concept))
  }

  /** What `_find_papers_by_concept` returns: the first five rows whose
      title names the concept. */
  function PapersByConcept(rows: seq<Row>, concept: string): seq<Row> {
    Take(Filter(rows, ConceptMatch(concept)), 5)
  }

  /** `_find_papers_by_concept`. */
  method FindPapersByConcept(rows: seq<Row>, concept: string) returns (papers: seq<Row>)
    ensures papers == PapersByConcept(rows, concept)
  {
    var found: seq<Row> := [];
    var i := 0;
    while i < |rows|
      invariant 0 <= i <= |rows|
      invariant found == Filter(rows[..i], ConceptMatch(concept))
    {
      FilterStep(rows, i, ConceptMatch(concept));
      if Contains(Lower(CellText(rows[i].title)), Lower(concept)) {
        found := found + [rows[i]];
      }
      i := i + 1;
    }
    assert rows[..|rows|] == rows;
    papers := Take(found, 5);
  }

  /** The papers of each concept in turn, up to five each. */
  function ConceptPapers(rows: seq<Row>, concepts: seq<string>): seq<Row> {
    if concepts == [] then []
    else ConceptPapers(rows, concepts[..|concepts| - 1]) + PapersByConcept(rows, concepts[|concepts| - 1])
  }

  /** Every concept paper names one of the concepts, and there are at most
      five per concept. */
  lemma {:induction false} ConceptPapersSpec(rows: seq<Row>, concepts: seq<string>)
    ensures |ConceptPapers(rows, concepts)| <= 5 * |concepts|
    ensures forall i :: 0 <= i < |ConceptPapers(rows, concepts)| ==>
      exists c :: c in concepts && ConceptMatch(c)(ConceptPapers(rows, concepts)[i])
  {
    if concepts != [] {
      var init, last := concepts[..|concepts| - 1], concepts[|concepts| - 1];
      ConceptPapersSpec(rows, init);
      var a, b := ConceptPapers(rows, init), PapersByConcept(rows, last);
      forall i | 0 <= i < |a + b| ensures exists c :: c in concepts && ConceptMatch(c)((a + b)[i]) {
        if i < |a| {
          assert (a + b)[i] == a[i];
          var c :| c in init && ConceptMatch(c)(a[i]);
          assert c in concepts;
        } else {
          assert (a + b)[i] == b[i - |a|];
          assert ConceptMatch(last)(b[i - |a|]);
        }
      }
    }
  }

  const CustomTail := " may reveal previously unrecognized biological pathways and therapeutic opportunities in space environments."
  const CustomEvidenceTail := " exists but integrated studies are limited. Cross-disciplinary approaches may uncover novel mechanisms."

  function CustomText(query: string, conceptText: string): string {
    "The interaction between " + conceptText + " in " + Lower(query) + CustomTail
  }

  function CustomEvidence(conceptText: string): string {
    "Research on " + conceptText + CustomEvidenceTail
  }

  function RowRefs(rs: seq<Row>): (refs: seq<Ref>)
    ensures |refs| == |rs|
  {
    seq(|rs|, k requires 0 <= k < |rs| => Ref(rs[k].title, rs[k].link))
  }

  /** `_create_custom_hypothesis`: nothing for fewer than two concepts. */
  function CreateCustomHypothesis(query: string, concepts: seq<string>, papers: seq<Row>): Option<Hypothesis> {
    if |concepts| < 2 then None
    else
      Some(Hypothesis(CustomText(query, Join(concepts, " and ")), CustomEvidence(Join(concepts, " and ")),
        CustomConfidence(|concepts|, |papers|) as real, "Custom query", RowRefs(Take(papers, 3))))
  }

  /** The custom hypotheses for the given concepts and their papers. */
  function CustomOf(query: string, concepts: seq<string>, papers: seq<Row>): seq<Hypothesis> {
    if |papers| >= 3 then
      match CreateCustomHypothesis(query, concepts, papers)
      case Some(h) => [h]
      case None => []
    else []
  }

  /** What `_generate_custom_query_hypotheses` returns. */
  function CustomHypotheses(query: string, rows: seq<Row>): seq<Hypothesis> {
    CustomOf(query, KeyConcepts(query), ConceptPapers(rows, KeyConcepts(query)))
  }

  /** There is a custom hypothesis exactly when there are two concepts or
      more and three papers or more; it has confidence 66..70. */
  lemma CustomOfSpec(query: string, concepts: seq<string>, papers: seq<Row>)
    ensures |CustomOf(query, concepts, papers)| <= 1
    ensures |CustomOf(query, concepts, papers)| == 1 <==> |concepts| >= 2 && |papers| >= 3
    ensures forall k :: 0 <= k < |CustomOf(query, concepts, papers)| ==>
      66.0 <= CustomOf(query, concepts, papers)[k].confidence <= 70.0 && CustomOf(query, concepts, papers)[k].kind == "Custom query"
  {
    if |concepts| >= 2 && |papers| >= 3 {
      CustomHypothesisSpec(query, concepts, papers);
    }
  }

  /** The custom hypothesis has confidence 66..70 and cites the first three
      concept papers. */
  lemma CustomHypothesisSpec(query: string, concepts: seq<string>, papers: seq<Row>)
    requires |concepts| >= 2 && |papers| >= 3
    ensures CreateCustomHypothesis(query, concepts, papers).Some?
    ensures var h := CreateCustomHypothesis(query, concepts, papers).value;
      66.0 <= h.confidence <= 70.0 && h.kind == "Custom query" && h.relatedPapers == RowRefs(papers[..3])
  {
  }

  /** The query's concepts decide: a custom hypothesis exactly when it
      names two concepts or more with three papers or more between them. */
  lemma CustomHypothesesSpec(query: string, rows: seq<Row>)
    ensures |CustomHypotheses(query, rows)| <= 1
    ensures |CustomHypotheses(query, rows)| == 1 <==>
      |KeyConcepts(query)| >= 2 && |ConceptPapers(rows, KeyConcepts(query))| >= 3
  {
    CustomOfSpec(query, KeyConcepts(query), ConceptPapers(rows, KeyConcepts(query)));
  }

  /** The loop of `_generate_custom_query_hypotheses` over the concepts. */
  method GatherConceptPapers(rows: seq<Row>, concepts: seq<string>) returns (papers: seq<Row>)
    ensures papers == ConceptPapers(rows, concepts)
  {
    papers := [];
    var i := 0;
    while i < |concepts|
      invariant 0 <= i <= |concepts|
      invariant papers == ConceptPapers(rows, concepts[..i])
    {
      var found := FindPapersByConcept(rows, concepts[i]);
      assert concepts[..i + 1][..i] == concepts[..i];
      papers := papers + found;
      i := i + 1;
    }
    assert concepts[..|concepts|] == concepts;
  }

  /** `_generate_custom_query_hypotheses`. */
  method GenerateCustomHypotheses(query: string, rows: seq<Row>) returns (hs: seq<Hypothesis>)
    ensures hs == CustomHypotheses(query, rows)
  {
    var concepts := ExtractKeyConcepts(query);
    var papers := GatherConceptPapers(rows, concepts);
    ghost var expected := CustomOf(query, concepts, papers);
    assert CustomHypotheses(query, rows) == expected;
    hs := [];
    if |papers| >= 3 {
      var h := CreateCustomHypothesis(query, concepts, papers);
      if h.Some? {
        hs := hs + [h.value];
        assert expected == [h.value];
      } else {
        assert expected == [];
      }
    } else {
      assert expected == [];
    }
  }

  // The generator

  /** The hypotheses generated when no related paper has stored ones. */
  function Generated(query: string, rows: seq<Row>, ranked: seq<Scored>, order: seq<string>): seq<Hypothesis> {
    GapHypotheses(query, RelatedPapers(ranked, 10)) + MethodologyHypotheses(query, RelatedPapers(ranked, 15)) +
    TrendHypotheses(query, order, PublicationTrends(rows)) + CustomHypotheses(query, rows)
  }

  /** The hypotheses collected before sorting. */
  function Candidates(query: string, rows: seq<Row>, ranked: seq<Scored>, stored: map<string, seq<string>>, order: seq<string>)
    : seq<Hypothesis>
  {
    match FirstStored(RelatedPapers(ranked, 5), stored)
    case Some(hs) => hs
    case None => Generated(query, rows, ranked, order)
  }

  /** What `generate_hypotheses` returns: nothing for an empty table, else
      the five most confident candidates, ties in collection order. */
  function Hypotheses(query: string, rows: seq<Row>, ranked: seq<Scored>, stored: map<string, seq<string>>, order: seq<string>)
    : seq<Hypothesis>
  {
    if rows == [] then [] else Take(SortBy(Candidates(query, rows, ranked, stored, order), ConfidenceGe), 5)
  }

  /** The search for stored hypotheses among the related papers: the loop
      with its `break`. */
  method FindStored(related: seq<Scored>, stored: map<string, seq<string>>) returns (found: bool, hs: seq<Hypothesis>)
    ensures found <==> FirstStored(related, stored).Some?
    ensures found ==> hs == FirstStored(related, stored).value
  {
    hs := [];
    found := false;
    var i := 0;
    while i < |related|
      invariant 0 <= i <= |related|
      invariant FirstStored(related, stored) == FirstStored(related[i..], stored)
    {
      var paper := related[i];
      assert related[i..][0] == paper && related[i..][1..] == related[i + 1..];
      var pmcId := ExtractPmcId(paper.row.link);
      if pmcId.Some? && pmcId.value in stored {
        hs := StoredList(stored[pmcId.value], paper.row);
        found := true;
        break;
      }
      i := i + 1;
    }
  }

  /** The loop over one paper's stored hypothesis texts. */
  method StoredList(texts: seq<string>, paper: Row) returns (hs: seq<Hypothesis>)
    ensures hs == StoredHypotheses(texts, paper)
  {
    hs := [];
    var i := 0;
    while i < |texts|
      invariant 0 <= i <= |texts|
      invariant hs == StoredHypotheses(texts[..i], paper)
    {
      StoredHypothesesAppend(texts, paper, i);
      hs := hs + [StoredHypothesis(texts[i], paper, i)];
      i := i + 1;
    }
    assert texts[..|texts|] == texts;
  }

  /** `generate_hypotheses` for a table, the papers ranked by their TF-IDF
      similarity to the query, the stored hypotheses by PMC identifier and
      the order in which the query's domains are visited. */
  method GenerateHypotheses(query: string, rows: seq<Row>, ranked: seq<Scored>, stored: map<string, seq<string>>,
                            order: seq<string>)
    returns (result: seq<Hypothesis>)
    requires forall d :: d in order <==> d in QueryDomains(query)
    ensures result == Hypotheses(query, rows, ranked, stored, order)
  {
    if rows == [] {
      return [];
    }
    var related := FindRelatedPapers(ranked, 5);
    var found, hypotheses := FindStored(related, stored);
    if !found {
      var gap := GenerateGapHypotheses(query, ranked);
      var methodology := GenerateMethodologyHypotheses(query, ranked);
      var trend := GenerateTrendHypotheses(query, rows, order);
      var custom := GenerateCustomHypotheses(query, rows);
      hypotheses := gap + methodology + trend + custom;
    }
    result := Take(SortBy(hypotheses, ConfidenceGe), 5);
  }

  /** The result: at most five hypotheses, highest confidence first, each
      one of the candidates, and five unless there are fewer candidates. */
  lemma HypothesesSpec(query: string, rows: seq<Row>, ranked: seq<Scored>, stored: map<string, seq<string>>, order: seq<string>)
    ensures var r := Hypotheses(query, rows, ranked, stored, order);
      var c := Candidates(query, rows, ranked, stored, order);
      |r| <= 5 && SortedBy(r, ConfidenceGe) &&
      (rows == [] ==> r == []) &&
      (rows != [] ==> |r| == IntMin(5, |c|) && multiset(r) <= multiset(c) && forall k :: 0 <= k < |r| ==> r[k] in c)
  {
    var c := Candidates(query, rows, ranked, stored, order);
    ConfidenceGeConsistent();
    TopOf(c, ConfidenceGe, 5);
  }

  /** The top five: a candidate left out of the result is no more confident
      than any hypothesis returned. */
  lemma HypothesesMaximal(query: string, rows: seq<Row>, ranked: seq<Scored>, stored: map<string, seq<string>>, order: seq<string>,
                          x: Hypothesis)
    requires rows != []
    requires x in Candidates(query, rows, ranked, stored, order) && x !in Hypotheses(query, rows, ranked, stored, order)
    ensures forall k :: 0 <= k < |Hypotheses(query, rows, ranked, stored, order)| ==>
      Hypotheses(query, rows, ranked, stored, order)[k].confidence >= x.confidence
  {
    var c := Candidates(query, rows, ranked, stored, order);
    var s := SortBy(c, ConfidenceGe);
    assert SortedBy(s, ConfidenceGe) by {
      ConfidenceGeConsistent();
      SortBySorted(c, ConfidenceGe);
    }
    PrefixMaximal(c, s, Take(s, 5), ConfidenceGe, x);
  }

  /** When a related paper has stored hypotheses, the result is the first
      five of them, in their stored order. */
  lemma StoredResult(query: string, rows: seq<Row>, ranked: seq<Scored>, stored: map<string, seq<string>>, order: seq<string>, k: nat)
    requires rows != []
    requires k < |RelatedPapers(ranked, 5)| && HasStored(RelatedPapers(ranked, 5)[k], stored)
    requires forall m :: 0 <= m < k ==> !HasStored(RelatedPapers(ranked, 5)[m], stored)
    ensures var paper := RelatedPapers(ranked, 5)[k];
      Hypotheses(query, rows, ranked, stored, order) ==
        Take(StoredHypotheses(stored[ExtractPmcId(paper.row.link).value], paper.row), 5)
  {
    var related := RelatedPapers(ranked, 5);
    FirstStoredSpec(related, stored);
    var fs := FirstStored(related, stored);
    var j :| 0 <= j < |related| && HasStored(related[j], stored) &&
      (forall m :: 0 <= m < j ==> !HasStored(related[m], stored)) &&
      fs.value == StoredHypotheses(stored[ExtractPmcId(related[j].row.link).value], related[j].row);
    assert j == k;
    StoredSorted(stored[ExtractPmcId(related[k].row.link).value], related[k].row);
    SortBySortedInput(fs.value, ConfidenceGe);
  }

  /** Without stored hypotheses every hypothesis returned is gap-based,
      methodology-driven, trend-based or custom, with confidence between
      66 and 80. */
  lemma GeneratedResult(query: string, rows: seq<Row>, ranked: seq<Scored>, stored: map<string, seq<string>>, order: seq<string>)
    requires forall m :: 0 <= m < |RelatedPapers(ranked, 5)| ==> !HasStored(RelatedPapers(ranked, 5)[m], stored)
    ensures forall k :: 0 <= k < |Hypotheses(query, rows, ranked, stored, order)| ==>
      var h := Hypotheses(query, rows, ranked, stored, order)[k];
      66.0 <= h.confidence <= 80.0 && GeneratedKind(h.kind)
  {
    NoStoredCandidates(query, rows, ranked, stored, order);
    GeneratedSpec(query, rows, ranked, order);
    HypothesesSpec(query, rows, ranked, stored, order);
    if rows != [] {
      WithinBounds(Hypotheses(query, rows, ranked, stored, order), Candidates(query, rows, ranked, stored, order));
    }
  }

  /** Without stored hypotheses the candidates are the generated ones. */
  lemma NoStoredCandidates(query: string, rows: seq<Row>, ranked: seq<Scored>, stored: map<string, seq<string>>, order: seq<string>)
    requires forall m :: 0 <= m < |RelatedPapers(ranked, 5)| ==> !HasStored(RelatedPapers(ranked, 5)[m], stored)
    ensures Candidates(query, rows, ranked, stored, order) == Generated(query, rows, ranked, order)
  {
    FirstStoredSpec(RelatedPapers(ranked, 5), stored);
  }

  /** Hypotheses drawn from candidates within the generated bounds are
      within them too. */
  lemma WithinBounds(r: seq<Hypothesis>, c: seq<Hypothesis>)
    requires forall k :: 0 <= k < |r| ==> r[k] in c
    requires forall h :: h in c ==> 66.0 <= h.confidence <= 80.0 && GeneratedKind(h.kind)
    ensures forall k :: 0 <= k < |r| ==> 66.0 <= r[k].confidence <= 80.0 && GeneratedKind(r[k].kind)
  {
  }

  /** Bounds on every position hold for every member. */
  lemma IndexBounds(hs: seq<Hypothesis>, lo: real, hi: real, kind: string)
    requires forall k :: 0 <= k < |hs| ==> lo <= hs[k].confidence <= hi && hs[k].kind == kind
    ensures forall h :: h in hs ==> lo <= h.confidence <= hi && h.kind == kind
  {
  }

  /** Gap hypotheses have confidence 66..80. */
  lemma GapBounds(query: string, ranked: seq<Scored>)
    ensures forall h :: h in GapHypotheses(query, RelatedPapers(ranked, 10)) ==>
      66.0 <= h.confidence <= 80.0 && h.kind == "Gap-based"
  {
    var related := RelatedPapers(ranked, 10);
    var gap := GapHypotheses(query, related);
    GapHypothesesSpec(query, related);
    forall k | 0 <= k < |gap| ensures 66.0 <= gap[k].confidence <= 80.0 && gap[k].kind == "Gap-based" {
      GapHypothesisSpec(query, GapDomains(related)[k], related);
    }
    IndexBounds(gap, 66.0, 80.0, "Gap-based");
  }

  /** Methodology hypotheses have confidence 70..80. */
  lemma MethodologyBounds(query: string, related: seq<Scored>, keywords: seq<string>)
    ensures forall h :: h in MethodologyOf(query, related, keywords) ==>
      70.0 <= h.confidence <= 80.0 && h.kind == "Methodology-driven"
  {
    var meth := MethodologyOf(query, related, keywords);
    var u := UniqueCombinations(Combinations(related, keywords));
    MethodologyHypothesesSpec(query, related, keywords);
    forall k | 0 <= k < |meth| ensures 70.0 <= meth[k].confidence <= 80.0 && meth[k].kind == "Methodology-driven" {
      MethodologyHypothesisSpec(query, u[k]);
    }
    IndexBounds(meth, 70.0, 80.0, "Methodology-driven");
  }

  /** Custom hypotheses have confidence 66..70. */
  lemma CustomBounds(query: string, rows: seq<Row>)
    ensures forall h :: h in CustomHypotheses(query, rows) ==> 66.0 <= h.confidence <= 70.0 && h.kind == "Custom query"
  {
    var concepts := KeyConcepts(query);
    var papers := ConceptPapers(rows, concepts);
    var c := CustomOf(query, concepts, papers);
    assert CustomHypotheses(query, rows) == c;
    CustomOfSpec(query, concepts, papers);
    IndexBounds(c, 66.0, 70.0, "Custom query");
  }

  /** The four kinds of generated hypothesis. */
  predicate GeneratedKind(kind: string) {
    kind == "Gap-based" || kind == "Methodology-driven" || kind == "Trend-based" || kind == "Custom query"
  }

  /** Gap, methodology, trend and custom hypotheses together. */
  lemma ConcatBounds(gap: seq<Hypothesis>, meth: seq<Hypothesis>, trend: seq<Hypothesis>, custom: seq<Hypothesis>)
    requires forall h :: h in gap ==> 66.0 <= h.confidence <= 80.0 && h.kind == "Gap-based"
    requires forall h :: h in meth ==> 70.0 <= h.confidence <= 80.0 && h.kind == "Methodology-driven"
    requires forall h :: h in trend ==> h.confidence == 75.0 && h.kind == "Trend-based"
    requires forall h :: h in custom ==> 66.0 <= h.confidence <= 70.0 && h.kind == "Custom query"
    ensures forall h :: h in gap + meth + trend + custom ==> 66.0 <= h.confidence <= 80.0 && GeneratedKind(h.kind)
  {
  }

  /** Every generated hypothesis has one of the four kinds and confidence
      66..80. */
  lemma GeneratedSpec(query: string, rows: seq<Row>, ranked: seq<Scored>, order: seq<string>)
    ensures forall h :: h in Generated(query, rows, ranked, order) ==> 66.0 <= h.confidence <= 80.0 && GeneratedKind(h.kind)
  {
    var gap := GapHypotheses(query, RelatedPapers(ranked, 10));
    var meth := MethodologyHypotheses(query, RelatedPapers(ranked, 15));
    var trend := TrendHypotheses(query, order, PublicationTrends(rows));
    var custom := CustomHypotheses(query, rows);
    GapBounds(query, ranked);
    MethodologyBounds(query, RelatedPapers(ranked, 15), MethodKeywords());
    TrendBounds(query, order, rows);
    CustomBounds(query, rows);
    ConcatBounds(gap, meth, trend, custom);
    assert Generated(query, rows, ranked, order) == gap + meth + trend + custom;
  }
}
