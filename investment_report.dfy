/** The text-level helpers of the PDF investment report: skipping empty
    values, percentages, the synergy summaries and which lines each report
    section lists.  The document layout and styling are not modelled; a
    section is the list of its lines, in order. */
module InvestmentReport {
  import opened Wrappers
  import opened Text
  import opened Numeric
  import opened Sorting
  import opened JsNumber

  /** A Python value handed to `format_value`: floats are IEEE numbers,
      NaN and the infinities included. */
  datatype PyValue = PyNone | PyBool(b: bool) | PyInt(i: int) | PyFloat(x: Number) | PyStr(s: string)

  /** `value == 0`: False, 0 and the float zero compare equal to 0. */
  predicate IsZero(v: PyValue) {
    v == PyBool(false) || v == PyInt(0) || v == PyFloat(Finite(0.0))
  }

  /** `str(value)`; `show` is Python's `repr` of a finite float. */
  function PyText(v: PyValue, show: real -> string): string {
    match v
    case PyNone => "None"
    case PyBool(b) => if b then "True" else "False"
    case PyInt(i) => IntToString(i)
    case PyFloat(Finite(x)) => show(x)
    case PyFloat(NaN) => "nan"
    case PyFloat(Infinity(negative)) => if negative then "-inf" else "inf"
    case PyStr(s) => s
  }

  /** `format_value(value, suffix)`. */
  function FormatValue(v: PyValue, suffix: string, show: real -> string): Option<string> {
    if v == PyNone || v == PyStr("") || IsZero(v) || v == PyFloat(NaN) then None
    else Some(PyText(v, show) + suffix)
  }

  /** None, the empty string, zero (False and 0.0 included) and NaN give
      nothing; any other value is rendered followed by the suffix. */
  lemma FormatValueSpec(v: PyValue, suffix: string, show: real -> string)
    ensures FormatValue(v, suffix, show).None? <==>
      v in {PyNone, PyStr(""), PyBool(false), PyInt(0), PyFloat(Finite(0.0)), PyFloat(NaN)}
    ensures FormatValue(v, suffix, show).Some? ==> FormatValue(v, suffix, show).value == PyText(v, show) + suffix
  {
  }

  /** What is rendered is never empty when floats have non-empty reprs. */
  lemma FormatValueTruthy(v: PyValue, suffix: string, show: real -> string)
    requires forall x :: show(x) != ""
    requires FormatValue(v, suffix, show).Some?
    ensures FormatValue(v, suffix, show).value != ""
  {
    if v.PyFloat? && v.x.Finite? {
      assert show(v.x.value) != "";
    }
  }

  /** `format_percentage(value)`: None for None and NaN; a string, which
      cannot be rounded, raises TypeError, and an infinite float raises
      OverflowError in `round`. */
  function FormatPercentage(v: PyValue): Result<Option<string>> {
    match v
    case PyNone => Ok(None)
    case PyBool(b) => Ok(Some(if b then "100%" else "0%"))
    case PyInt(i) => Ok(Some(IntToString(100 * i) + "%"))
    case PyFloat(Finite(x)) => Ok(Some(IntToString(RoundHalfEven(x * 100.0)) + "%"))
    case PyFloat(NaN) => Ok(None)
    case PyFloat(Infinity(_)) => Err("OverflowError")
    case PyStr(_) => Err("TypeError")
  }

  /** A number is given as a whole percentage, rounded half to even; zero
      gives "0%", not nothing. */
  lemma FormatPercentageSpec(x: real)
    ensures FormatPercentage(PyFloat(Finite(x))) == Ok(Some(IntToString(RoundHalfEven(x * 100.0)) + "%"))
    ensures FormatPercentage(PyNone) == Ok(None) && FormatPercentage(PyFloat(NaN)) == Ok(None)
  {
  }

  /** Zero, as an int or a float, gives "0%". */
  lemma FormatPercentageZero()
    ensures FormatPercentage(PyFloat(Finite(0.0))) == Ok(Some("0%"))
    ensures FormatPercentage(PyInt(0)) == Ok(Some("0%"))
  {
    RoundHalfEvenOfInt(0);
    assert 0.0 * 100.0 == 0 as real;
    IntToStringZero();
    assert "0" + "%" == "0%";
  }

  /** The rounded percentage of a float is within half a point of it. */
  lemma FormatPercentageNear(x: real)
    ensures RoundHalfEven(x * 100.0) as real - 0.5 <= x * 100.0 <= RoundHalfEven(x * 100.0) as real + 0.5
  {
  }

  // get_synergy_summary

  const HumanSpaceSummary := "Studies on cerebral arteries and reproductive health suggest overlapping physiological adaptations that require joint research for comprehensive astronaut health solutions."
  const SpaceTechSummary := "Plant gravisensing research bridges fundamental biology with technological applications, creating opportunities for innovative lab-on-a-chip solutions."
  const PlanetarySpaceSummary := "Mars mission plant biology research connects planetary exploration with space agriculture, essential for sustainable life support systems."
  const EarthSpaceSummary := "Atmospheric pressure research links Earth-based plant studies with space biology, crucial for understanding plant responses in extreme environments."
  const GenericSummaryTail := " shows significant thematic overlap with strong potential for cross-domain collaboration and knowledge transfer."

  /** The ordered domain pairs with a summary of their own. */
  function SummaryPairs(): seq<(string, string)> {
    [("Human Research", "Space Biology"), ("Space Biology", "Technology Development"),
     ("Planetary Science", "Space Biology"), ("Earth Science", "Space Biology")]
  }

  function SummaryTexts(): seq<string> {
    [HumanSpaceSummary, SpaceTechSummary, PlanetarySpaceSummary, EarthSpaceSummary]
  }

  /** The `summaries` table, keyed "A-B". */
  function SummaryTable(): map<string, string> {
    map[PairKey(SummaryPairs()[0]) := SummaryTexts()[0], PairKey(SummaryPairs()[1]) := SummaryTexts()[1],
        PairKey(SummaryPairs()[2]) := SummaryTexts()[2], PairKey(SummaryPairs()[3]) := SummaryTexts()[3]]
  }

  /** The key "A-B" of a pair. */
  function PairKey(pair: (string, string)): string {
    pair.0 + "-" + pair.1
  }

  /** `synergy.get('Domain_A', '')`. */
  function OrDefault(o: Option<string>, d: string): string {
    match o
    case Some(s) => s
    case None => d
  }

  /** `get_synergy_summary(synergy)`. */
  function SynergySummary(domainA: Option<string>, domainB: Option<string>): string {
    var key := PairKey((OrDefault(domainA, ""), OrDefault(domainB, "")));
    if key in SummaryTable() then SummaryTable()[key]
    else "Research in " + OrDefault(domainA, "Unknown") + " and " + OrDefault(domainB, "Unknown") + GenericSummaryTail
  }

  predicate NoDash(s: string) { forall i :: 0 <= i < |s| ==> s[i] != '-' }

  /** A key joined with the one dash splits back into its two parts when
      the second part has no dash of its own. */
  lemma SplitKey(a: string, b: string, x: string, y: string)
    requires NoDash(x) && NoDash(y)
    requires a + "-" + b == x + "-" + y
    ensures a == x && b == y
  {
    var key := x + "-" + y;
    assert forall i :: 0 <= i < |key| && key[i] == '-' ==> i == |x|;
    assert (a + "-" + b)[|a|] == '-';
    assert a == key[..|a|] && x == key[..|x|];
    assert b == key[|a| + 1..] && y == key[|x| + 1..];
  }

  lemma SummaryPairsNoDash(k: nat)
    requires k < 4
    ensures NoDash(SummaryPairs()[k].0) && NoDash(SummaryPairs()[k].1)
  {
  }

  /** The table holds the keys of the four pairs, each with its summary. */
  lemma SummaryTableSpec(key: string)
    ensures key in SummaryTable() <==> exists k :: 0 <= k < 4 && key == PairKey(SummaryPairs()[k])
    ensures forall k :: 0 <= k < 4 ==> SummaryTable()[PairKey(SummaryPairs()[k])] == SummaryTexts()[k]
  {
    var ks := seq(4, k requires 0 <= k < 4 => PairKey(SummaryPairs()[k]));
    assert |ks[0]| == 28 && |ks[1]| == 36 && |ks[2]| == 31 && |ks[3]| == 27;
  }

  /** A pair gets its own summary exactly when it is one of the four
      ordered pairs listed; every other pair, the reversed ones included,
      gets the general sentence naming both domains. */
  lemma SynergySummarySpec(a: string, b: string)
    ensures forall k :: 0 <= k < 4 && SummaryPairs()[k] == (a, b) ==> SynergySummary(Some(a), Some(b)) == SummaryTexts()[k]
    ensures (forall k :: 0 <= k < 4 ==> SummaryPairs()[k] != (a, b)) ==>
      SynergySummary(Some(a), Some(b)) == "Research in " + a + " and " + b + GenericSummaryTail
  {
    var key := PairKey((a, b));
    SummaryTableSpec(key);
    if key in SummaryTable() {
      var k :| 0 <= k < 4 && key == PairKey(SummaryPairs()[k]);
      SummaryPairsNoDash(k);
      SplitKey(a, b, SummaryPairs()[k].0, SummaryPairs()[k].1);
    }
  }

  /** The pair read the other way round gets the general sentence. */
  lemma ReversedPairGeneric(k: nat)
    requires k < 4
    ensures var (a, b) := SummaryPairs()[k];
      SynergySummary(Some(b), Some(a)) == "Research in " + b + " and " + a + GenericSummaryTail
  {
    var (a, b) := SummaryPairs()[k];
    forall j | 0 <= j < 4 ensures SummaryPairs()[j] != (b, a) {
    }
    SynergySummarySpec(b, a);
  }

  // Report data

  /** A number of the report data, as JSON delivers it. */
  datatype Num = IntNum(i: int) | FloatNum(x: real)

  /** A missing entry reads as None. */
  function ValueOf(o: Option<Num>): PyValue {
    match o
    case None => PyNone
    case Some(IntNum(i)) => PyInt(i)
    case Some(FloatNum(x)) => PyFloat(Finite(x))
  }

  /** Python truthiness of a value. */
  predicate Truthy(v: PyValue) {
    match v
    case PyNone => false
    case PyBool(b) => b
    case PyInt(i) => i != 0
    case PyFloat(x) => x != Finite(0.0)
    case PyStr(s) => s != ""
  }

  predicate TruthyText(o: Option<string>) { o.Some? && o.value != "" }

  /** `if self.format_value(x):`. */
  predicate Passes(o: Option<Num>, show: real -> string) {
    var f := FormatValue(ValueOf(o), "", show);
    f.Some? && f.value != ""
  }

  /** A number passes the check exactly when it is given, not zero, and
      (for a float) rendered as non-empty text. */
  lemma PassesSpec(o: Option<Num>, show: real -> string)
    ensures Passes(o, show) <==>
      match o
      case None => false
      case Some(IntNum(i)) => i != 0
      case Some(FloatNum(x)) => x != 0.0 && show(x) != ""
  {
  }

  /** The percentage of a number. */
  function Percent(n: Num): string {
    match n
    case IntNum(i) => IntToString(100 * i) + "%"
    case FloatNum(x) => IntToString(RoundHalfEven(x * 100.0)) + "%"
  }

  function PercentOf(o: Option<Num>): Option<string> {
    match o
    case None => None
    case Some(n) => Some(Percent(n))
  }

  /** On the numbers of the report data `format_percentage` never raises,
      and gives a percentage exactly when the number is there. */
  lemma PercentOfSpec(o: Option<Num>)
    ensures FormatPercentage(ValueOf(o)) == Ok(PercentOf(o))
    ensures PercentOf(o).Some? <==> o.Some?
  {
  }

  /** `str(n)`. */
  function NumText(n: Num, show: real -> string): string {
    match n
    case IntNum(i) => IntToString(i)
    case FloatNum(x) => show(x)
  }

  /** `f"{n:.1f}"`; `fixed1` renders a real with one decimal. */
  function Fixed1(n: Num, fixed1: real -> string): string {
    match n
    case IntNum(i) => fixed1(i as real)
    case FloatNum(x) => fixed1(x)
  }

  /** The renderings of floats the report uses. */
  datatype Renderers = Renderers(show: real -> string, fixed1: real -> string)

  // The title page

  datatype TitleData = TitleData(budget: PyValue, timeline: PyValue, riskTolerance: PyValue)

  /** The report details of the title page; the report date is a clock
      reading passed in. */
  function TitleDetails(date: string, d: TitleData, show: real -> string): (rows: seq<(string, string)>)
  {
    [("Report Date:", date), ("Generated By:", "NASA Cross-Domain Synergy Analysis System"), ("Analysis Period:", "Current Dataset")] +
    (if Truthy(d.budget) then [("Investment Budget:", "$" + PyText(d.budget, show) + "M")] else []) +
    (if Truthy(d.timeline) then [("Timeline:", PyText(d.timeline, show) + " months")] else []) +
    (if Truthy(d.riskTolerance) then [("Risk Tolerance:", PyText(d.riskTolerance, show))] else [])
  }

  /** Three fixed rows followed by up to three optional rows with
      distinct keys: each optional row is there exactly when its condition
      holds, in order. */
  lemma OptionalRows<T>(base: seq<(string, T)>, cb: bool, xb: (string, T), ct: bool, xt: (string, T), cr: bool, xr: (string, T))
    requires |base| == 3 && xb.0 != xt.0 && xb.0 != xr.0 && xt.0 != xr.0
    ensures var rows := base + (if cb then [xb] else []) + (if ct then [xt] else []) + (if cr then [xr] else []);
      rows[0] == base[0] &&
      |rows| == 3 + (if cb then 1 else 0) + (if ct then 1 else 0) + (if cr then 1 else 0) &&
      (cb <==> exists k :: 3 <= k < |rows| && rows[k].0 == xb.0) &&
      (ct <==> exists k :: 3 <= k < |rows| && rows[k].0 == xt.0) &&
      (cr <==> exists k :: 3 <= k < |rows| && rows[k].0 == xr.0) &&
      (cb ==> rows[3] == xb)
  {
    var b := if cb then [xb] else [];
    var t := if ct then [xt] else [];
    var r := if cr then [xr] else [];
    var rows := base + b + t + r;
    if cb {
      assert rows[3] == xb;
    }
    if ct {
      assert rows[|base + b|] == xt;
    }
    if cr {
      assert rows[|base + b + t|] == xr;
    }
    forall k | 3 <= k < |rows| ensures rows[k] in b + t + r {
      assert rows[k] == (b + t + r)[k - 3];
    }
  }

  /** The three fixed rows come first; the budget, timeline and risk rows
      follow, in that order, each exactly when its value is truthy. */
  lemma TitleDetailsSpec(date: string, d: TitleData, show: real -> string)
    ensures var rows := TitleDetails(date, d, show);
      3 <= |rows| <= 6 && rows[0] == ("Report Date:", date) &&
      |rows| == 3 + (if Truthy(d.budget) then 1 else 0) + (if Truthy(d.timeline) then 1 else 0) + (if Truthy(d.riskTolerance) then 1 else 0) &&
      (Truthy(d.budget) <==> exists k :: 3 <= k < |rows| && rows[k].0 == "Investment Budget:") &&
      (Truthy(d.timeline) <==> exists k :: 3 <= k < |rows| && rows[k].0 == "Timeline:") &&
      (Truthy(d.riskTolerance) <==> exists k :: 3 <= k < |rows| && rows[k].0 == "Risk Tolerance:")
    ensures Truthy(d.budget) ==> TitleDetails(date, d, show)[3] == ("Investment Budget:", "$" + PyText(d.budget, show) + "M")
  {
    OptionalRows([("Report Date:", date), ("Generated By:", "NASA Cross-Domain Synergy Analysis System"), ("Analysis Period:", "Current Dataset")],
      Truthy(d.budget), ("Investment Budget:", "$" + PyText(d.budget, show) + "M"),
      Truthy(d.timeline), ("Timeline:", PyText(d.timeline, show) + " months"),
      Truthy(d.riskTolerance), ("Risk Tolerance:", PyText(d.riskTolerance, show)));
  }

  // The financial summary

  datatype Financials = Financials(totalFundingRequired: Option<Num>, budgetUtilization: Option<Num>,
    estimatedRoi: Option<Num>, avgRoi: Option<Num>)

  const NoFinancialData := "No financial data available."
  const Bullet := "\U{2022} "

  /** The candidate lines, in their fixed order: each is there when its
      check passes. */
  function FinancialCandidates(f: Financials, r: Renderers): seq<Option<string>> {
    [if Passes(f.totalFundingRequired, r.show) then Some(Bullet + "Total Funding Required: $" + Fixed1(f.totalFundingRequired.value, r.fixed1) + "M") else None,
     if PercentOf(f.budgetUtilization).Some? then Some(Bullet + "Budget Utilization: " + PercentOf(f.budgetUtilization).value) else None,
     if Passes(f.estimatedRoi, r.show) then Some(Bullet + "Estimated ROI: " + NumText(f.estimatedRoi.value, r.show) + "%") else None,
     if Passes(f.avgRoi, r.show) then Some(Bullet + "Average ROI: " + Fixed1(f.avgRoi.value, r.fixed1) + "%") else None]
  }

  /** The values present, in order. */
  function Present<T>(os: seq<Option<T>>): seq<T> {
    if os == [] then [] else (if os[0].Some? then [os[0].value] else []) + Present(os[1..])
  }

  /** A value is listed exactly when it is present, and the values keep
      their order. */
  lemma {:induction false} PresentSpec<T>(os: seq<Option<T>>)
    ensures |Present(os)| <= |os|
    ensures Present(os) == [] <==> forall k :: 0 <= k < |os| ==> os[k].None?
    ensures forall x :: x in Present(os) <==> Some(x) in os
  {
    if os != [] {
      PresentSpec(os[1..]);
      assert os == [os[0]] + os[1..];
    }
  }

  /** The items of the financial summary, in their fixed order: those
      whose check passes. */
  function FinancialItems(f: Financials, r: Renderers): seq<string> {
    Present(FinancialCandidates(f, r))
  }

  /** No item is listed exactly when no value passes; otherwise there are
      at most four, the total funding first when it passes. */
  lemma FinancialItemsSpec(f: Financials, r: Renderers)
    ensures FinancialItems(f, r) == [] <==>
      !Passes(f.totalFundingRequired, r.show) && f.budgetUtilization.None? && !Passes(f.estimatedRoi, r.show) && !Passes(f.avgRoi, r.show)
    ensures |FinancialItems(f, r)| <= 4
    ensures Passes(f.totalFundingRequired, r.show) ==>
      FinancialItems(f, r)[0] == Bullet + "Total Funding Required: $" + Fixed1(f.totalFundingRequired.value, r.fixed1) + "M"
  {
    var cs := FinancialCandidates(f, r);
    PresentSpec(cs);
    assert cs[0].None? <==> !Passes(f.totalFundingRequired, r.show);
    assert cs[1].None? <==> f.budgetUtilization.None?;
    assert cs[2].None? <==> !Passes(f.estimatedRoi, r.show);
    assert cs[3].None? <==> !Passes(f.avgRoi, r.show);
    assert Present(cs) == (if cs[0].Some? then [cs[0].value] else []) + Present(cs[1..]);
  }

  /** The character after the bullet, which tells the items apart. */
  function Tag(line: string): char {
    if |line| > |Bullet| then line[|Bullet|] else ' '
  }

  /** The candidates carry the tags T, B, E and A. */
  lemma CandidateTags(f: Financials, r: Renderers)
    ensures var cs := FinancialCandidates(f, r);
      (cs[0].Some? ==> Tag(cs[0].value) == 'T') && (cs[1].Some? ==> Tag(cs[1].value) == 'B') &&
      (cs[2].Some? ==> Tag(cs[2].value) == 'E') && (cs[3].Some? ==> Tag(cs[3].value) == 'A')
  {
  }

  /** The budget-utilization item is listed exactly when the value is
      given. */
  lemma BudgetUtilizationListed(f: Financials, r: Renderers)
    ensures f.budgetUtilization.Some? <==> exists k :: 0 <= k < |FinancialItems(f, r)| && Tag(FinancialItems(f, r)[k]) == 'B'
    ensures f.budgetUtilization.Some? ==> Bullet + "Budget Utilization: " + Percent(f.budgetUtilization.value) in FinancialItems(f, r)
  {
    var cs := FinancialCandidates(f, r);
    PresentSpec(cs);
    CandidateTags(f, r);
    var items := FinancialItems(f, r);
    if f.budgetUtilization.Some? {
      var line := cs[1].value;
      assert line in Present(cs);
    }
    if k :| 0 <= k < |items| && Tag(items[k]) == 'B' {
      assert items[k] in Present(cs);
      var j :| 0 <= j < 4 && cs[j] == Some(items[k]);
    }
  }

  // The story: the paragraphs of the document, in order

  datatype Style = SectionHeader | Subsection | BodyText | BulletPoint

  datatype Para = Para(text: string, style: Style)

  predicate IsSubsection(p: Para) { p.style == Subsection }

  /** The items as paragraphs of one style, in order. */
  function Paras(items: seq<string>, style: Style): (ps: seq<Para>)
    ensures |ps| == |items|
    ensures forall k :: 0 <= k < |ps| ==> ps[k] == Para(items[k], style)
  {
    seq(|items|, k requires 0 <= k < |items| => Para(items[k], style))
  }

  /** `f"• {x}"` for each x. */
  function Bulleted(xs: seq<string>): (ys: seq<string>)
    ensures |ys| == |xs|
    ensures forall k :: 0 <= k < |ys| ==> ys[k] == Bullet + xs[k]
  {
    seq(|xs|, k requires 0 <= k < |xs| => Bullet + xs[k])
  }

  /** `for item in items: story.append(Paragraph(item, style))`. */
  method AppendParas(story: seq<Para>, items: seq<string>, style: Style) returns (out: seq<Para>)
    ensures out == story + Paras(items, style)
  {
    out := story;
    var i := 0;
    while i < |items|
      invariant 0 <= i <= |items|
      invariant |out| == |story| + i
      invariant out[..|story|] == story
      invariant forall k :: 0 <= k < i ==> out[|story| + k] == Para(items[k], style)
    {
      out := out + [Para(items[i], style)];
      i := i + 1;
    }
  }

  /** A section (or a block of one) that lists items: its heading, then
      the items as bullet points, or the fallback sentence when there are
      none. */
  function ListSection(heading: Para, items: seq<string>, fallback: string): seq<Para> {
    [heading] + (if items == [] then [Para(fallback, BodyText)] else Paras(items, BulletPoint))
  }

  /** The heading comes first; the fallback appears exactly when there is
      no item; otherwise each item follows, in order; only the heading can
      be a subsection title. */
  lemma ListSectionSpec(heading: Para, items: seq<string>, fallback: string)
    requires heading.style != BodyText
    ensures var s := ListSection(heading, items, fallback);
      s[0] == heading &&
      |s| == 1 + (if items == [] then 1 else |items|) &&
      (items == [] <==> Para(fallback, BodyText) in s) &&
      (forall k :: 0 <= k < |items| ==> s[1 + k] == Para(items[k], BulletPoint)) &&
      Filter(s, IsSubsection) == (if IsSubsection(heading) then [heading] else [])
  {
    ListSectionTitles(heading, items, fallback);
  }

  /** Only the heading of a list section can be a subsection title. */
  lemma ListSectionTitles(heading: Para, items: seq<string>, fallback: string)
    ensures Filter(ListSection(heading, items, fallback), IsSubsection) == (if IsSubsection(heading) then [heading] else [])
  {
    var s := ListSection(heading, items, fallback);
    var rest := if items == [] then [Para(fallback, BodyText)] else Paras(items, BulletPoint);
    assert s[1..] == rest;
    FilterNone(rest, IsSubsection);
  }

  /** Appends a list section to the story. */
  method AppendListSection(story: seq<Para>, heading: Para, items: seq<string>, fallback: string) returns (out: seq<Para>)
    ensures out == story + ListSection(heading, items, fallback)
  {
    out := story + [heading];
    if items == [] {
      out := out + [Para(fallback, BodyText)];
    } else {
      out := AppendParas(out, items, BulletPoint);
    }
  }

  /** `create_financial_summary`. */
  function FinancialSection(f: Financials, r: Renderers): seq<Para> {
    ListSection(Para("Financial Summary", SectionHeader), FinancialItems(f, r), NoFinancialData)
  }

  method CreateFinancialSummary(story: seq<Para>, f: Financials, r: Renderers) returns (out: seq<Para>)
    ensures out == story + FinancialSection(f, r)
  {
    out := AppendListSection(story, Para("Financial Summary", SectionHeader), FinancialItems(f, r), NoFinancialData);
  }

  // The synergies

  /** A project of a synergy's `fundingBreakdown`. */
  datatype Project = Project(title: Option<string>, funding: Option<Num>, citations: Option<Num>, status: Option<string>)

  /** One recommended synergy; an absent or empty project is None. */
  datatype Synergy = Synergy(domainA: Option<string>, domainB: Option<string>, similarityScore: Option<Num>,
    totalFunding: Option<Num>, totalCitations: Option<Num>, expectedRoi: Option<Num>, riskLevel: Option<string>,
    projectA: Option<Project>, projectB: Option<Project>)

  const NoSynergyData := "No synergy data available."
  const SynergiesHeading := Para("Top Recommended Synergies", SectionHeader)

  /** `sep.join(xs)`. */
  function Join(xs: seq<string>, sep: string): string {
    if xs == [] then "" else if |xs| == 1 then xs[0] else xs[0] + sep + Join(xs[1..], sep)
  }

  /** The numbered header "i. A ↔ B". */
  function SynergyHeader(i: int, s: Synergy): string {
    IntToString(i) + ". " + OrDefault(s.domainA, "Unknown") + " \U{2194} " + OrDefault(s.domainB, "Unknown")
  }

  /** The candidate metric lines, in their fixed order. */
  function MetricCandidates(s: Synergy, r: Renderers): seq<Option<string>> {
    [if PercentOf(s.similarityScore).Some? then Some(Bullet + "Similarity Score: " + PercentOf(s.similarityScore).value) else None,
     if Passes(s.totalFunding, r.show) then Some(Bullet + "Total Funding: $" + Fixed1(s.totalFunding.value, r.fixed1) + "M") else None,
     if Passes(s.totalCitations, r.show) then Some(Bullet + "Total Citations: " + NumText(s.totalCitations.value, r.show)) else None,
     if Passes(s.expectedRoi, r.show) then Some(Bullet + "Expected ROI: " + NumText(s.expectedRoi.value, r.show) + "%") else None,
     if TruthyText(s.riskLevel) then Some(Bullet + "Risk Level: " + s.riskLevel.value) else None]
  }

  /** The metrics of a synergy: the candidates whose check passes. */
  function SynergyMetrics(s: Synergy, r: Renderers): seq<string> {
    Present(MetricCandidates(s, r))
  }

  /** No metric is listed exactly when no check passes; the similarity
      score comes first whenever it is given. */
  lemma SynergyMetricsSpec(s: Synergy, r: Renderers)
    ensures |SynergyMetrics(s, r)| <= 5
    ensures SynergyMetrics(s, r) == [] <==>
      s.similarityScore.None? && !Passes(s.totalFunding, r.show) && !Passes(s.totalCitations, r.show) &&
      !Passes(s.expectedRoi, r.show) && !TruthyText(s.riskLevel)
    ensures s.similarityScore.Some? ==> SynergyMetrics(s, r)[0] == Bullet + "Similarity Score: " + Percent(s.similarityScore.value)
  {
    var cs := MetricCandidates(s, r);
    PresentSpec(cs);
    assert cs[0].None? <==> s.similarityScore.None?;
    assert cs[1].None? <==> !Passes(s.totalFunding, r.show);
    assert cs[2].None? <==> !Passes(s.totalCitations, r.show);
    assert cs[3].None? <==> !Passes(s.expectedRoi, r.show);
    assert cs[4].None? <==> !TruthyText(s.riskLevel);
    assert Present(cs) == (if cs[0].Some? then [cs[0].value] else []) + Present(cs[1..]);
  }

  /** The details of a project that pass their checks. */
  function ProjectDetails(p: Project, r: Renderers): seq<string> {
    Present([if Passes(p.funding, r.show) then Some("Funding: $" + Fixed1(p.funding.value, r.fixed1) + "M") else None,
             if Passes(p.citations, r.show) then Some("Citations: " + NumText(p.citations.value, r.show)) else None,
             if TruthyText(p.status) then Some("Status: " + p.status.value) else None])
  }

  /** The lines of project A or B: its title, then its details on one
      line when there are any. */
  function ProjectParas(side: string, p: Option<Project>, r: Renderers): (ps: seq<Para>)
    ensures forall k :: 0 <= k < |ps| ==> ps[k].style == BodyText
  {
    match p
    case None => []
    case Some(q) =>
      var details := ProjectDetails(q, r);
      [Para("<b>Project " + side + ":</b> " + OrDefault(q.title, "Unknown"), BodyText)] +
      (if details == [] then [] else [Para(" - " + Join(details, " | "), BodyText)])
  }

  /** A project shows nothing when absent; otherwise its title, and a
      second line exactly when one of its details passes. */
  lemma ProjectParasSpec(side: string, p: Option<Project>, r: Renderers)
    ensures p.None? ==> ProjectParas(side, p, r) == []
    ensures p.Some? ==>
      ProjectParas(side, p, r)[0] == Para("<b>Project " + side + ":</b> " + OrDefault(p.value.title, "Unknown"), BodyText) &&
      (|ProjectParas(side, p, r)| == 2 <==>
        Passes(p.value.funding, r.show) || Passes(p.value.citations, r.show) || TruthyText(p.value.status)) &&
      1 <= |ProjectParas(side, p, r)| <= 2
  {
    if p.Some? {
      var q := p.value;
      var cs := [if Passes(q.funding, r.show) then Some("Funding: $" + Fixed1(q.funding.value, r.fixed1) + "M") else None,
                 if Passes(q.citations, r.show) then Some("Citations: " + NumText(q.citations.value, r.show)) else None,
                 if TruthyText(q.status) then Some("Status: " + q.status.value) else None];
      PresentSpec(cs);
    }
  }

  /** The paragraphs of the i-th synergy. */
  function SynergyBlock(i: int, s: Synergy, r: Renderers): seq<Para> {
    [Para(SynergyHeader(i, s), Subsection), Para("<b>Summary:</b> " + SynergySummary(s.domainA, s.domainB), BodyText)] +
    Paras(SynergyMetrics(s, r), BulletPoint) + ProjectParas("A", s.projectA, r) + ProjectParas("B", s.projectB, r)
  }

  method CreateSynergyBlock(story: seq<Para>, i: int, s: Synergy, r: Renderers) returns (out: seq<Para>)
    ensures out == story + SynergyBlock(i, s, r)
  {
    var top := [Para(SynergyHeader(i, s), Subsection), Para("<b>Summary:</b> " + SynergySummary(s.domainA, s.domainB), BodyText)];
    var metrics := SynergyMetrics(s, r);
    var pa, pb := ProjectParas("A", s.projectA, r), ProjectParas("B", s.projectB, r);
    out := AppendParas(story + top, metrics, BulletPoint);
    out := out + pa + pb;
    ConcatAssoc5(story, top, Paras(metrics, BulletPoint), pa, pb);
  }

  lemma ConcatAssoc5<T>(a: seq<T>, b: seq<T>, c: seq<T>, d: seq<T>, e: seq<T>)
    ensures a + b + c + d + e == a + (b + c + d + e)
  {
  }

  /** A block holds one subsection title: its own header. */
  lemma SynergyBlockHeaders(i: int, s: Synergy, r: Renderers)
    ensures Filter(SynergyBlock(i, s, r), IsSubsection) == [Para(SynergyHeader(i, s), Subsection)]
  {
    var top := [Para(SynergyHeader(i, s), Subsection), Para("<b>Summary:</b> " + SynergySummary(s.domainA, s.domainB), BodyText)];
    var ms := Paras(SynergyMetrics(s, r), BulletPoint);
    var pa := ProjectParas("A", s.projectA, r);
    var pb := ProjectParas("B", s.projectB, r);
    assert Filter(top, IsSubsection) == [top[0]] + Filter(top[1..], IsSubsection);
    FilterNone(top[1..], IsSubsection);
    FilterNone(ms, IsSubsection);
    FilterNone(pa, IsSubsection);
    FilterNone(pb, IsSubsection);
    FilterAppend(top, ms, IsSubsection);
    FilterAppend(top + ms, pa, IsSubsection);
    FilterAppend(top + ms + pa, pb, IsSubsection);
  }

  /** The blocks of the first n synergies, numbered from 1. */
  function Blocks(ss: seq<Synergy>, n: nat, r: Renderers): seq<Para>
    requires n <= |ss|
  {
    if n == 0 then [] else Blocks(ss, n - 1, r) + SynergyBlock(n, ss[n - 1], r)
  }

  /** The numbered headers of the first n synergies. */
  function Headers(ss: seq<Synergy>, n: nat): (hs: seq<Para>)
    requires n <= |ss|
    ensures |hs| == n
  {
    if n == 0 then [] else Headers(ss, n - 1) + [Para(SynergyHeader(n, ss[n - 1]), Subsection)]
  }

  lemma {:induction false} HeadersAt(ss: seq<Synergy>, n: nat, k: nat)
    requires k < n <= |ss|
    ensures Headers(ss, n)[k] == Para(SynergyHeader(k + 1, ss[k]), Subsection)
  {
    if k < n - 1 {
      HeadersAt(ss, n - 1, k);
    }
  }

  /** The subsection titles of the first n blocks are their headers, in
      order. */
  lemma {:induction false} BlocksHeaders(ss: seq<Synergy>, n: nat, r: Renderers)
    requires n <= |ss|
    ensures Filter(Blocks(ss, n, r), IsSubsection) == Headers(ss, n)
  {
    if n > 0 {
      BlocksHeaders(ss, n - 1, r);
      FilterAppend(Blocks(ss, n - 1, r), SynergyBlock(n, ss[n - 1], r), IsSubsection);
      SynergyBlockHeaders(n, ss[n - 1], r);
    }
  }

  /** `create_synergies_section`. */
  function SynergiesSection(ss: seq<Synergy>, r: Renderers): seq<Para> {
    [SynergiesHeading] +
    (if ss == [] then [Para(NoSynergyData, BodyText)] else Blocks(Head(ss, 5), |Head(ss, 5)|, r))
  }

  method CreateSynergiesSection(story: seq<Para>, synergies: seq<Synergy>, r: Renderers) returns (out: seq<Para>)
    ensures out == story + SynergiesSection(synergies, r)
  {
    out := story + [SynergiesHeading];
    if synergies == [] {
      out := out + [Para(NoSynergyData, BodyText)];
      AppendAssoc(story, [SynergiesHeading], [Para(NoSynergyData, BodyText)]);
      return;
    }
    var top := Head(synergies, 5);
    var i := 0;
    while i < |top|
      invariant 0 <= i <= |top|
      invariant out == story + [SynergiesHeading] + Blocks(top, i, r)
    {
      out := CreateSynergyBlock(out, i + 1, top[i], r);
      AppendAssoc(story + [SynergiesHeading], Blocks(top, i, r), SynergyBlock(i + 1, top[i], r));
      i := i + 1;
    }
    AppendAssoc(story, [SynergiesHeading], Blocks(top, |top|, r));
  }

  /** The fallback appears exactly when there is no synergy. */
  lemma SynergiesFallback(ss: seq<Synergy>, r: Renderers)
    ensures var s := SynergiesSection(ss, r);
      |s| >= 2 && s[0] == SynergiesHeading &&
      (ss == [] <==> s[1] == Para(NoSynergyData, BodyText))
  {
    if ss != [] {
      BlocksFirst(Head(ss, 5), |Head(ss, 5)|, r);
    }
  }

  /** The section shows the first five synergies at most, each under its
      numbered header, in order. */
  lemma SynergiesHeaders(ss: seq<Synergy>, r: Renderers)
    ensures var hs := Filter(SynergiesSection(ss, r), IsSubsection);
      |hs| == (if |ss| < 5 then |ss| else 5) &&
      forall k :: 0 <= k < |hs| ==> hs[k] == Para(SynergyHeader(k + 1, ss[k]), Subsection)
  {
    var s := SynergiesSection(ss, r);
    var rest := s[1..];
    assert Filter(s, IsSubsection) == Filter(rest, IsSubsection) by {
      assert s == [SynergiesHeading] + rest;
      FilterAppend([SynergiesHeading], rest, IsSubsection);
      FilterNone([SynergiesHeading], IsSubsection);
    }
    if ss == [] {
      FilterNone(rest, IsSubsection);
    } else {
      var top := Head(ss, 5);
      assert Filter(rest, IsSubsection) == Headers(top, |top|) by {
        assert rest == Blocks(top, |top|, r);
        BlocksHeaders(top, |top|, r);
      }
      forall k | 0 <= k < |top| ensures Headers(top, |top|)[k] == Para(SynergyHeader(k + 1, ss[k]), Subsection) {
        HeadIndex(ss, 5, k);
        HeadersAt(top, |top|, k);
      }
    }
  }

  /** The first paragraph of a non-empty run of blocks is the first
      header. */
  lemma {:induction false} BlocksFirst(ss: seq<Synergy>, n: nat, r: Renderers)
    requires 0 < n <= |ss|
    ensures |Blocks(ss, n, r)| > 0 && Blocks(ss, n, r)[0] == Para(SynergyHeader(1, ss[0]), Subsection)
  {
    if n > 1 {
      BlocksFirst(ss, n - 1, r);
    }
  }


  const NoRiskStrategies := "No risk mitigation strategies available."

  /** `create_risk_mitigation_section`: each strategy as a bullet point. */
  function RiskMitigationSection(strategies: seq<string>): seq<Para> {
    ListSection(Para("Risk Mitigation Strategies", SectionHeader), Bulleted(strategies), NoRiskStrategies)
  }

  method CreateRiskMitigationSection(story: seq<Para>, strategies: seq<string>) returns (out: seq<Para>)
    ensures out == story + RiskMitigationSection(strategies)
  {
    out := AppendListSection(story, Para("Risk Mitigation Strategies", SectionHeader), Bulleted(strategies), NoRiskStrategies);
  }

  /** Every strategy is listed, in order, and the fallback exactly when
      there is none. */
  lemma RiskMitigationSpec(strategies: seq<string>)
    ensures var s := RiskMitigationSection(strategies);
      |s| == 1 + (if strategies == [] then 1 else |strategies|) &&
      (strategies == [] <==> Para(NoRiskStrategies, BodyText) in s) &&
      forall k :: 0 <= k < |strategies| ==> s[1 + k] == Para(Bullet + strategies[k], BulletPoint)
  {
    ListSectionSpec(Para("Risk Mitigation Strategies", SectionHeader), Bulleted(strategies), NoRiskStrategies);
  }

  // The timeline

  /** The three phases of `timelineRecommendations`. */
  datatype Timeline = Timeline(phase1: Option<string>, phase2: Option<string>, phase3: Option<string>)

  const NoTimeline := "No timeline recommendations available."

  /** The truthy phases, in order, as bullet items. */
  function TimelineItems(t: Timeline): seq<string> {
    Present([if TruthyText(t.phase1) then Some(Bullet + t.phase1.value) else None,
             if TruthyText(t.phase2) then Some(Bullet + t.phase2.value) else None,
             if TruthyText(t.phase3) then Some(Bullet + t.phase3.value) else None])
  }

  /** `create_timeline_section`. */
  function TimelineSection(t: Timeline): seq<Para> {
    ListSection(Para("Timeline Recommendations", SectionHeader), TimelineItems(t), NoTimeline)
  }

  method CreateTimelineSection(story: seq<Para>, t: Timeline) returns (out: seq<Para>)
    ensures out == story + TimelineSection(t)
  {
    out := AppendListSection(story, Para("Timeline Recommendations", SectionHeader), TimelineItems(t), NoTimeline);
  }

  /** The fallback appears exactly when no phase is truthy; a truthy
      first phase is listed first, and one line is listed per truthy
      phase. */
  lemma TimelineSpec(t: Timeline)
    ensures var s := TimelineSection(t);
      (Para(NoTimeline, BodyText) in s <==> !TruthyText(t.phase1) && !TruthyText(t.phase2) && !TruthyText(t.phase3)) &&
      |TimelineItems(t)| == (if TruthyText(t.phase1) then 1 else 0) + (if TruthyText(t.phase2) then 1 else 0) + (if TruthyText(t.phase3) then 1 else 0) &&
      (TruthyText(t.phase1) ==> s[1] == Para(Bullet + t.phase1.value, BulletPoint))
  {
    var o1 := if TruthyText(t.phase1) then Some(Bullet + t.phase1.value) else None;
    var o2 := if TruthyText(t.phase2) then Some(Bullet + t.phase2.value) else None;
    var o3 := if TruthyText(t.phase3) then Some(Bullet + t.phase3.value) else None;
    var items := TimelineItems(t);
    assert items == (if o1.Some? then [o1.value] else []) + (if o2.Some? then [o2.value] else []) + (if o3.Some? then [o3.value] else []) by {
      PresentThree(o1, o2, o3);
    }
    ListSectionSpec(Para("Timeline Recommendations", SectionHeader), items, NoTimeline);
  }

  /** Three optional values, present in order. */
  lemma PresentThree<T>(o1: Option<T>, o2: Option<T>, o3: Option<T>)
    ensures Present([o1, o2, o3]) == (if o1.Some? then [o1.value] else []) + (if o2.Some? then [o2.value] else []) + (if o3.Some? then [o3.value] else [])
  {
    var cs := [o1, o2, o3];
    assert Present(cs) == (if cs[0].Some? then [cs[0].value] else []) + Present(cs[1..]);
    assert Present(cs[1..]) == (if cs[1].Some? then [cs[1].value] else []) + Present(cs[2..]);
    assert Present(cs[2..]) == (if cs[2].Some? then [cs[2].value] else []) + Present(cs[3..]);
  }

  // Success metrics

  datatype SuccessMetrics = SuccessMetrics(shortTerm: seq<string>, mediumTerm: seq<string>, longTerm: seq<string>)

  const ShortTermTitle := Para("Short-term (3 months):", Subsection)
  const MediumTermTitle := Para("Medium-term (6-12 months):", Subsection)
  const LongTermTitle := Para("Long-term (12+ months):", Subsection)

  /** `create_success_metrics_section`: the three terms, each with its
      bullet points or its own fallback. */
  function SuccessMetricsSection(m: SuccessMetrics): seq<Para> {
    [Para("Success Metrics", SectionHeader)] +
    ListSection(ShortTermTitle, Bulleted(m.shortTerm), "No short-term metrics available.") +
    ListSection(MediumTermTitle, Bulleted(m.mediumTerm), "No medium-term metrics available.") +
    ListSection(LongTermTitle, Bulleted(m.longTerm), "No long-term metrics available.")
  }

  method CreateSuccessMetricsSection(story: seq<Para>, m: SuccessMetrics) returns (out: seq<Para>)
    ensures out == story + SuccessMetricsSection(m)
  {
    out := story + [Para("Success Metrics", SectionHeader)];
    out := AppendListSection(out, ShortTermTitle, Bulleted(m.shortTerm), "No short-term metrics available.");
    out := AppendListSection(out, MediumTermTitle, Bulleted(m.mediumTerm), "No medium-term metrics available.");
    out := AppendListSection(out, LongTermTitle, Bulleted(m.longTerm), "No long-term metrics available.");
  }

  /** A heading followed by three list sections: only the three section
      titles are subsections. */
  lemma ThreeSectionsTitles(h: Para, t1: Para, i1: seq<string>, f1: string, t2: Para, i2: seq<string>, f2: string,
                            t3: Para, i3: seq<string>, f3: string)
    requires !IsSubsection(h) && IsSubsection(t1) && IsSubsection(t2) && IsSubsection(t3)
    ensures Filter([h] + ListSection(t1, i1, f1) + ListSection(t2, i2, f2) + ListSection(t3, i3, f3), IsSubsection) == [t1, t2, t3]
  {
    var a, b, c := ListSection(t1, i1, f1), ListSection(t2, i2, f2), ListSection(t3, i3, f3);
    assert Filter(a, IsSubsection) == [t1] by {
      ListSectionTitles(t1, i1, f1);
    }
    assert Filter(b, IsSubsection) == [t2] by {
      ListSectionTitles(t2, i2, f2);
    }
    assert Filter(c, IsSubsection) == [t3] by {
      ListSectionTitles(t3, i3, f3);
    }
    assert Filter([h], IsSubsection) == [] by {
      FilterNone([h], IsSubsection);
    }
    FilterFour([h], a, b, c, IsSubsection);
    assert [] + [t1] + [t2] + [t3] == [t1, t2, t3];
  }

  /** Filtering distributes over four concatenated pieces. */
  lemma FilterFour<T>(h: seq<T>, a: seq<T>, b: seq<T>, c: seq<T>, p: T -> bool)
    ensures Filter(h + a + b + c, p) == Filter(h, p) + Filter(a, p) + Filter(b, p) + Filter(c, p)
  {
    FilterAppend(h, a, p);
    FilterAppend(h + a, b, p);
    FilterAppend(h + a + b, c, p);
  }

  /** Each of three list sections after a heading takes its items or one
      fallback line. */
  lemma ThreeSectionsLength(h: Para, t1: Para, i1: seq<string>, f1: string, t2: Para, i2: seq<string>, f2: string,
                            t3: Para, i3: seq<string>, f3: string)
    ensures |[h] + ListSection(t1, i1, f1) + ListSection(t2, i2, f2) + ListSection(t3, i3, f3)| ==
      4 + (if i1 == [] then 1 else |i1|) + (if i2 == [] then 1 else |i2|) + (if i3 == [] then 1 else |i3|)
  {
  }

  /** The three term titles always appear, in order, whatever the lists
      hold, and each term takes one line per metric or one fallback. */
  lemma SuccessMetricsSpec(m: SuccessMetrics)
    ensures Filter(SuccessMetricsSection(m), IsSubsection) == [ShortTermTitle, MediumTermTitle, LongTermTitle]
    ensures |SuccessMetricsSection(m)| ==
      4 + (if m.shortTerm == [] then 1 else |m.shortTerm|) + (if m.mediumTerm == [] then 1 else |m.mediumTerm|) + (if m.longTerm == [] then 1 else |m.longTerm|)
  {
    ThreeSectionsTitles(Para("Success Metrics", SectionHeader), ShortTermTitle, Bulleted(m.shortTerm), "No short-term metrics available.",
      MediumTermTitle, Bulleted(m.mediumTerm), "No medium-term metrics available.",
      LongTermTitle, Bulleted(m.longTerm), "No long-term metrics available.");
    ThreeSectionsLength(Para("Success Metrics", SectionHeader), ShortTermTitle, Bulleted(m.shortTerm), "No short-term metrics available.",
      MediumTermTitle, Bulleted(m.mediumTerm), "No medium-term metrics available.",
      LongTermTitle, Bulleted(m.longTerm), "No long-term metrics available.");
  }
}
