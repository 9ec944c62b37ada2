/** The mission readiness service: publications are mapped to readiness
    categories by keyword rules, each category is scored from its
    publications, and the scores are averaged into an overall index.  The
    category rules file is a parameter: a sequence of rules in the key order
    of the JSON object, so with distinct ids. */
module MissionReadiness {
  import opened Wrappers
  import opened Text
  import opened Sorting
  import opened Numeric
  import JsNumber
  import opened JsObject

  /** The `year` field of a publication: absent (`undefined`), JSON `null`,
      or a whole number. */
  datatype YearField = Absent | Null | Year(value: int)

  /** A publication record.  An absent field is `None`; a record without a
      `sections` object has all three sections absent; absent keywords are
      the empty list. */
  datatype Publication = Publication(
    id: Option<string>, title: Option<string>, abstractText: Option<string>,
    introduction: Option<string>, results: Option<string>, conclusion: Option<string>,
    keywords: seq<string>, year: YearField)

  /** One entry of the category rules. */
  datatype Rule = Rule(id: string, name: string, keywords: seq<string>, implications: seq<string>)

  /** The ids of a rules object are its keys, hence distinct. */
  predicate DistinctIds(rules: seq<Rule>) {
    forall i, j :: 0 <= i < j < |rules| ==> rules[i].id != rules[j].id
  }

  /** `field || ''`. */
  function OrEmpty(s: Option<string>): string {
    match s
    case None => ""
    case Some(t) => t
  }

  /** A JavaScript string is truthy when present and non-empty. */
  predicate Truthy(s: Option<string>) { s.Some? && s.value != "" }

  // Mapping publications to categories

  /** The fields `mapPublicationToCategories` searches, keywords last. */
  function CategoryParts(p: Publication): seq<string> {
    [OrEmpty(p.title), OrEmpty(p.abstractText), OrEmpty(p.introduction), OrEmpty(p.results), OrEmpty(p.conclusion)] + p.keywords
  }

  /** The fields joined with spaces and lower-cased. */
  function CategoryText(p: Publication): string {
    Lower(Join(CategoryParts(p), " "))
  }

  /** The text contains the lower-cased keyword. */
  function Hit(text: string): string -> bool {
    (kw: string) => Contains(text, Lower(kw))
  }

  /** At least one keyword of the rule matches. */
  function Matched(text: string): Rule -> bool {
    (r: Rule) => Filter(r.keywords, Hit(text)) != []
  }

  function Ids(rules: seq<Rule>): (ids: seq<string>)
    ensures |ids| == |rules| && forall k :: 0 <= k < |rules| ==> ids[k] == rules[k].id
  {
    seq(|rules|, k requires 0 <= k < |rules| => rules[k].id)
  }

  /** The ids of the rules matching a text, in rule order. */
  function CategoriesIn(rules: seq<Rule>, text: string): seq<string> {
    Ids(Filter(rules, Matched(text)))
  }

  /** `mapPublicationToCategories(publication)`. */
  function CategoriesOf(rules: seq<Rule>, p: Publication): seq<string> {
    CategoriesIn(rules, CategoryText(p))
  }

  /** A filter keeps something exactly when some element passes. */
  lemma FilterNonEmpty<T>(s: seq<T>, p: T -> bool)
    ensures Filter(s, p) != [] <==> exists x :: x in s && p(x)
  {
    if x :| x in s && p(x) {
      FilterMembership(s, p, x);
    }
    if Filter(s, p) != [] {
      FilterMembership(s, p, Filter(s, p)[0]);
    }
  }

  /** A rule matches exactly when one of its keywords occurs, ignoring
      case, in the text. */
  lemma MatchedSpec(text: string, r: Rule)
    ensures Matched(text)(r) <==> exists kw :: kw in r.keywords && Contains(text, Lower(kw))
  {
    FilterNonEmpty(r.keywords, Hit(text));
  }

  /** A category is returned exactly when its rule matches. */
  lemma CategoriesSpec(rules: seq<Rule>, text: string, id: string)
    ensures id in CategoriesIn(rules, text) <==> exists k :: 0 <= k < |rules| && rules[k].id == id && Matched(text)(rules[k])
  {
    if id in CategoriesIn(rules, text) {
      CategoriesSound(rules, text, id);
    }
    if k :| 0 <= k < |rules| && rules[k].id == id && Matched(text)(rules[k]) {
      CategoriesComplete(rules, text, k);
    }
  }

  lemma CategoriesSound(rules: seq<Rule>, text: string, id: string)
    requires id in CategoriesIn(rules, text)
    ensures exists k :: 0 <= k < |rules| && rules[k].id == id && Matched(text)(rules[k])
  {
    var ms := Filter(rules, Matched(text));
    var j :| 0 <= j < |ms| && ms[j].id == id;
    FilterMembership(rules, Matched(text), ms[j]);
  }

  lemma CategoriesComplete(rules: seq<Rule>, text: string, k: nat)
    requires k < |rules| && Matched(text)(rules[k])
    ensures rules[k].id in CategoriesIn(rules, text)
  {
    FilterPosition(rules, Matched(text), k);
    assert CategoriesIn(rules, text)[|Filter(rules[..k], Matched(text))|] == rules[k].id;
  }

  /** Nothing is returned exactly when no rule matches. */
  lemma CategoriesEmpty(rules: seq<Rule>, text: string)
    ensures CategoriesIn(rules, text) == [] <==> forall k :: 0 <= k < |rules| ==> !Matched(text)(rules[k])
  {
    FilterNonEmpty(rules, Matched(text));
  }

  /** Matched categories come in rule order. */
  lemma CategoriesOrder(rules: seq<Rule>, text: string, i: nat, j: nat)
    requires i < j < |rules|
    requires Matched(text)(rules[i]) && Matched(text)(rules[j])
    ensures exists a, b ::
      0 <= a < b < |CategoriesIn(rules, text)| && CategoriesIn(rules, text)[a] == rules[i].id && CategoriesIn(rules, text)[b] == rules[j].id
  {
    var m := Matched(text);
    FilterPosition(rules, m, i);
    FilterPosition(rules, m, j);
    FilterCountMonotone(rules, m, i, j);
    var a, b := |Filter(rules[..i], m)|, |Filter(rules[..j], m)|;
    assert CategoriesIn(rules, text)[a] == rules[i].id && CategoriesIn(rules, text)[b] == rules[j].id;
  }

  /** A keyword found in any one field, ignoring case, matches its
      category. */
  lemma FieldMatches(rules: seq<Rule>, p: Publication, k: nat, f: nat, kw: string)
    requires k < |rules| && kw in rules[k].keywords
    requires f < |CategoryParts(p)| && Contains(Lower(CategoryParts(p)[f]), Lower(kw))
    ensures rules[k].id in CategoriesOf(rules, p)
  {
    PartMatches(CategoryParts(p), f, Lower(kw));
    MatchedSpec(CategoryText(p), rules[k]);
    CategoriesComplete(rules, CategoryText(p), k);
  }

  /** What one part contains, ignoring case, the joined parts contain. */
  lemma PartMatches(parts: seq<string>, f: nat, w: string)
    requires f < |parts| && Contains(Lower(parts[f]), w)
    ensures Contains(Lower(Join(parts, " ")), w)
  {
    JoinInfix(parts, " ", f);
    var a: string, c: string :| Join(parts, " ") == a + parts[f] + c;
    TextInfix(a, parts[f], c, w);
  }

  /** Lower-casing a text with an infix keeps the infix's matches. */
  lemma TextInfix(a: string, b: string, c: string, x: string)
    requires Contains(Lower(b), x)
    ensures Contains(Lower(a + b + c), x)
  {
    LowerConcat(a + b, c);
    LowerConcat(a, b);
    ContainsInfix(Lower(a), Lower(b), Lower(c), x);
  }

  /** Filtering rules with distinct ids keeps the ids distinct. */
  lemma {:induction false} FilterIdsDistinct(rules: seq<Rule>, m: Rule -> bool)
    requires DistinctIds(rules)
    ensures DistinctIds(Filter(rules, m))
  {
    if rules != [] {
      FilterIdsDistinct(rules[1..], m);
      var rest := Filter(rules[1..], m);
      forall j | 0 <= j < |rest| ensures rest[j].id != rules[0].id {
        FilterMembership(rules[1..], m, rest[j]);
      }
    }
  }

  /** Each category is returned at most once. */
  lemma CategoriesDistinct(rules: seq<Rule>, text: string)
    requires DistinctIds(rules)
    ensures forall i, j :: 0 <= i < j < |CategoriesIn(rules, text)| ==> CategoriesIn(rules, text)[i] != CategoriesIn(rules, text)[j]
  {
    FilterIdsDistinct(rules, Matched(text));
  }

  /** Every category returned is a rule's id. */
  lemma CategoriesWithin(rules: seq<Rule>, text: string)
    ensures forall id :: id in CategoriesIn(rules, text) ==> id in Ids(rules)
  {
    forall id | id in CategoriesIn(rules, text) ensures id in Ids(rules) {
      CategoriesSpec(rules, text, id);
    }
  }

  // Scoring a category

  datatype Level = Green | Yellow | Red

  datatype GapConfidence = Low | Medium | High

  datatype Score = Score(numeric: int, level: Level, gapConfidence: GapConfidence)

  /** The evidence keywords of `scoreCategory`. */
  const ScoreKeywords: seq<string> := ["countermeasure", "trial", "tested", "validated", "protocol", "system"]

  /** Title, abstract, results and conclusion joined with spaces. */
  function EvidenceParts(p: Publication): string {
    Join([OrEmpty(p.title), OrEmpty(p.abstractText), OrEmpty(p.results), OrEmpty(p.conclusion)], " ")
  }

  /** The same, lower-cased. */
  function EvidenceText(p: Publication): string { Lower(EvidenceParts(p)) }

  /** `words.some(w => text.includes(w))`. */
  predicate Mentions(text: string, words: seq<string>) {
    exists w :: w in words && Contains(text, w)
  }

  /** Some publication mentions a countermeasure keyword. */
  predicate HasCountermeasures(pubs: seq<Publication>) {
    exists p :: p in pubs && Mentions(EvidenceText(p), ScoreKeywords)
  }

  /** Green from 70, Yellow from 40, Red below. */
  function LevelOf(score: int): Level {
    if score >= 70 then Green else if score >= 40 then Yellow else Red
  }

  /** Low from five publications, medium from three, high below. */
  function GapConfidenceOf(n: nat): GapConfidence {
    if n >= 5 then Low else if n >= 3 then Medium else High
  }

  /** The score of a category in closed form. */
  function CategoryScore(pubs: seq<Publication>): Score {
    if pubs == [] then Score(0, Red, High)
    else
      var raw := IntMin(100, 10 * |pubs|) + (if HasCountermeasures(pubs) then 15 else 0) - (if |pubs| < 3 then 20 else 0);
      var s := IntMax(0, IntMin(100, raw));
      Score(s, LevelOf(s), GapConfidenceOf(|pubs|))
  }

  /** `scoreCategory(publicationsForCategory, env)`: `env` is not used. */
  method ScoreCategory(pubs: seq<Publication>, env: string) returns (score: Score)
    ensures score == CategoryScore(pubs)
  {
    if |pubs| == 0 {
      return Score(0, Red, High);
    }
    var baseScore := IntMin(100, 10 * |pubs|);
    var hasCountermeasures := HasCountermeasures(pubs);
    if hasCountermeasures {
      baseScore := baseScore + 15;
    }
    if |pubs| < 3 {
      baseScore := baseScore - 20;
    }
    var finalScore := IntMax(0, IntMin(100, baseScore));
    var level: Level;
    if finalScore >= 70 {
      level := Green;
    } else if finalScore >= 40 {
      level := Yellow;
    } else {
      level := Red;
    }
    var gapConfidence: GapConfidence;
    if |pubs| >= 5 {
      gapConfidence := Low;
    } else if |pubs| >= 3 {
      gapConfidence := Medium;
    } else {
      gapConfidence := High;
    }
    score := Score(finalScore, level, gapConfidence);
  }

  /** The score lies within 0..100; the level follows the thresholds and
      the gap confidence the publication count; no publications score 0,
      Red, with high gap confidence. */
  lemma ScoreSpec(pubs: seq<Publication>)
    ensures var s := CategoryScore(pubs);
      0 <= s.numeric <= 100 &&
      (s.level == Green <==> s.numeric >= 70) &&
      (s.level == Yellow <==> 40 <= s.numeric < 70) &&
      (s.level == Red <==> s.numeric < 40) &&
      (s.gapConfidence == Low <==> |pubs| >= 5) &&
      (s.gapConfidence == Medium <==> 3 <= |pubs| < 5) &&
      (s.gapConfidence == High <==> |pubs| < 3)
    ensures pubs == [] ==> CategoryScore(pubs) == Score(0, Red, High)
  {
  }

  /** One more publication never lowers the score. */
  lemma ScoreMonotone(pubs: seq<Publication>, p: Publication)
    ensures CategoryScore(pubs).numeric <= CategoryScore(pubs + [p]).numeric
  {
    if HasCountermeasures(pubs) {
      var q :| q in pubs && Mentions(EvidenceText(q), ScoreKeywords);
      assert q in pubs + [p];
    }
  }

  /** The scores the service's tests expect: a single publication with a
      countermeasure scores 5; three score 45 (Yellow) and five 65
      (Yellow) when some mention a countermeasure; ten or more score 100. */
  lemma ScoreExamples(pubs: seq<Publication>)
    ensures |pubs| == 1 && HasCountermeasures(pubs) ==> CategoryScore(pubs) == Score(5, Red, High)
    ensures |pubs| == 3 && HasCountermeasures(pubs) ==> CategoryScore(pubs) == Score(45, Yellow, Medium)
    ensures |pubs| == 5 && HasCountermeasures(pubs) ==> CategoryScore(pubs) == Score(65, Yellow, Low)
    ensures |pubs| >= 10 ==> CategoryScore(pubs) == Score(100, Green, Low)
  {
  }

  // Design implications

  const RulesNotFound := "Category rules not found"
  const ExerciseImplication := "Prioritize exercise countermeasures in mission design"
  const ShieldingImplication := "Implement advanced shielding materials for radiation protection"
  const MonitoringImplication := "Deploy continuous monitoring systems for crew health"

  /** The own-key half of `categoryRules[id]`: the rule with that id. */
  function FindRule(rules: seq<Rule>, id: string): Option<Rule> {
    if rules == [] then None
    else if rules[0].id == id then Some(rules[0])
    else FindRule(rules[1..], id)
  }

  /** The rule found is the first with the id; none is found exactly when
      no rule has it. */
  lemma {:induction false} FindRuleSpec(rules: seq<Rule>, id: string)
    ensures FindRule(rules, id).None? <==> forall k :: 0 <= k < |rules| ==> rules[k].id != id
    ensures FindRule(rules, id).Some? ==>
      exists k :: 0 <= k < |rules| && rules[k] == FindRule(rules, id).value && rules[k].id == id &&
        forall m :: 0 <= m < k ==> rules[m].id != id
  {
    if rules != [] && rules[0].id != id {
      FindRuleSpec(rules[1..], id);
      if FindRule(rules, id).Some? {
        var k :| 0 <= k < |rules[1..]| && rules[1..][k] == FindRule(rules, id).value && rules[1..][k].id == id &&
          forall m :: 0 <= m < k ==> rules[1..][m].id != id;
        assert rules[k + 1] == rules[1..][k];
        assert forall m :: 1 <= m < k + 1 ==> rules[m] == rules[1..][m - 1];
      } else {
        assert forall k :: 1 <= k < |rules| ==> rules[k] == rules[1..][k - 1];
      }
    }
  }

  /** In rules with distinct ids, a rule's id finds that rule. */
  lemma FindOwnRule(rules: seq<Rule>, k: nat)
    requires DistinctIds(rules) && k < |rules|
    ensures FindRule(rules, rules[k].id) == Some(rules[k])
  {
    FindRuleSpec(rules, rules[k].id);
  }

  /** What `categoryRules[id]` finds on the parsed rules object: an own
      rule, a value inherited from `Object.prototype`, or nothing. */
  datatype RuleLookup = OwnRule(rule: Rule) | InheritedValue | NoRule

  /** `categoryRules[id]` as JavaScript evaluates it: an own key first, then
      the prototype chain. */
  function LookupRule(rules: seq<Rule>, id: string): RuleLookup {
    match FindRule(rules, id)
    case Some(r) => OwnRule(r)
    case None => if id in InheritedNames then InheritedValue else NoRule
  }

  /** The lookup finds an own rule exactly when some rule has the id (the
      first such rule), an inherited value exactly for an inherited name no
      rule has, and nothing otherwise. */
  lemma LookupRuleSpec(rules: seq<Rule>, id: string)
    ensures LookupRule(rules, id).OwnRule? <==> exists k :: 0 <= k < |rules| && rules[k].id == id
    ensures LookupRule(rules, id).OwnRule? ==> LookupRule(rules, id).rule == FindRule(rules, id).value
    ensures LookupRule(rules, id).InheritedValue? <==> (forall k :: 0 <= k < |rules| ==> rules[k].id != id) && id in InheritedNames
    ensures LookupRule(rules, id).NoRule? <==> (forall k :: 0 <= k < |rules| ==> rules[k].id != id) && id !in InheritedNames
  {
    FindRuleSpec(rules, id);
  }

  /** The publications' texts joined with spaces and lower-cased. */
  function ImplicationsText(pubs: seq<Publication>): string {
    Lower(Join(seq(|pubs|, k requires 0 <= k < |pubs| => EvidenceParts(pubs[k])), " "))
  }

  /** The implications added for what the text mentions. */
  function Extras(text: string): seq<string> {
    (if Contains(text, "exercise") && Contains(text, "effective") then [ExerciseImplication] else []) +
    (if Contains(text, "shielding") && Contains(text, "reduced") then [ShieldingImplication] else []) +
    (if Contains(text, "monitoring") && Contains(text, "real-time") then [MonitoringImplication] else [])
  }

  /** `generateDesignImplications(publicationsForCategory, categoryId)`. */
  function DesignImplications(pubs: seq<Publication>, rules: seq<Rule>, id: string): seq<string> {
    match FindRule(rules, id)
    case None => [RulesNotFound]
    case Some(r) => Head(r.implications + Extras(ImplicationsText(pubs)), 4)
  }

  /** `generateDesignImplications` as written: an inherited value passes the
      `!rules` guard, and spreading its missing `implications` throws a
      TypeError. */
  function DesignImplicationsAsWritten(pubs: seq<Publication>, rules: seq<Rule>, id: string): Result<seq<string>> {
    match LookupRule(rules, id)
    case OwnRule(r) => Ok(Head(r.implications + Extras(ImplicationsText(pubs)), 4))
    case InheritedValue => Err("TypeError: rules.implications is not iterable")
    case NoRule => Ok([RulesNotFound])
  }

  /** The code as written agrees with the own-key lookup except on inherited
      names, where it throws instead of reporting the missing rules. */
  lemma DesignImplicationsAsWrittenSpec(pubs: seq<Publication>, rules: seq<Rule>, id: string)
    ensures id !in InheritedNames ==> DesignImplicationsAsWritten(pubs, rules, id) == Ok(DesignImplications(pubs, rules, id))
    ensures (exists k :: 0 <= k < |rules| && rules[k].id == id) ==>
      DesignImplicationsAsWritten(pubs, rules, id) == Ok(DesignImplications(pubs, rules, id))
    ensures DesignImplicationsAsWritten(pubs, rules, id).Err? <==>
      id in InheritedNames && forall k :: 0 <= k < |rules| ==> rules[k].id != id
  {
    LookupRuleSpec(rules, id);
  }

  /** "constructor" names no readiness category, yet the code as written
      throws for it, where the intended answer is the not-found message. */
  lemma ConstructorCategoryThrows(pubs: seq<Publication>, rules: seq<Rule>)
    requires forall k :: 0 <= k < |rules| ==> rules[k].id != "constructor"
    ensures DesignImplicationsAsWritten(pubs, rules, "constructor").Err?
    ensures DesignImplications(pubs, rules, "constructor") == [RulesNotFound]
  {
    assert InheritedNames[0] == "constructor";
    LookupRuleSpec(rules, "constructor");
  }

  /** One of the implications the text can add. */
  predicate AddedImplication(s: string) {
    s == ExerciseImplication || s == ShieldingImplication || s == MonitoringImplication
  }

  /** An unknown category gets the one message; a known one gets at most
      four implications: its base implications first, then additions. */
  lemma DesignImplicationsSpec(pubs: seq<Publication>, rules: seq<Rule>, id: string)
    ensures FindRule(rules, id).None? ==> DesignImplications(pubs, rules, id) == [RulesNotFound]
    ensures FindRule(rules, id).Some? ==>
      var base := FindRule(rules, id).value.implications;
      var r := DesignImplications(pubs, rules, id);
      |r| <= 4 &&
      |r| == IntMin(4, |base| + |Extras(ImplicationsText(pubs))|) &&
      (forall k :: 0 <= k < |r| && k < |base| ==> r[k] == base[k]) &&
      (forall k :: |base| <= k < |r| ==> AddedImplication(r[k]))
  {
    if FindRule(rules, id).Some? {
      var text := ImplicationsText(pubs);
      ExtrasAdded(text);
      CappedSpec(FindRule(rules, id).value.implications, Extras(text));
    }
  }

  lemma ExtrasAdded(text: string)
    ensures forall k :: 0 <= k < |Extras(text)| ==> AddedImplication(Extras(text)[k])
  {
  }

  /** The first four of the base implications followed by additions. */
  lemma CappedSpec(base: seq<string>, extra: seq<string>)
    requires forall k :: 0 <= k < |extra| ==> AddedImplication(extra[k])
    ensures var r := Head(base + extra, 4);
      |r| == IntMin(4, |base| + |extra|) &&
      (forall k :: 0 <= k < |r| && k < |base| ==> r[k] == base[k]) &&
      (forall k :: |base| <= k < |r| ==> AddedImplication(r[k]))
  {
    var r := Head(base + extra, 4);
    forall k | |base| <= k < |r| ensures AddedImplication(r[k]) {
      HeadIndex(base + extra, 4, k);
      assert r[k] == extra[k - |base|];
    }
    forall k | 0 <= k < |r| && k < |base| ensures r[k] == base[k] {
      HeadIndex(base + extra, 4, k);
    }
  }

  /** With room left, a text naming effective exercise adds the exercise
      implication. */
  lemma ExerciseAdded(pubs: seq<Publication>, rules: seq<Rule>, id: string)
    requires FindRule(rules, id).Some? && |FindRule(rules, id).value.implications| < 4
    requires Contains(ImplicationsText(pubs), "exercise") && Contains(ImplicationsText(pubs), "effective")
    ensures ExerciseImplication in DesignImplications(pubs, rules, id)
  {
    var base := FindRule(rules, id).value.implications;
    var all := base + Extras(ImplicationsText(pubs));
    assert all[|base|] == ExerciseImplication;
    assert DesignImplications(pubs, rules, id)[|base|] == all[|base|];
  }

  // Top findings

  datatype Finding = Finding(pubId: Option<string>, short: string)

  /** `results || conclusion || abstract?.substring(0, 150) + '...'`; a
      missing abstract reads as "undefined". */
  function ShortOf(p: Publication): string {
    if Truthy(p.results) then p.results.value
    else if Truthy(p.conclusion) then p.conclusion.value
    else
      match p.abstractText
      case None => "undefined..."
      case Some(a) => a[..IntMin(150, |a|)] + "..."
  }

  /** `extractTopFindings(publicationsForCategory, limit)`. */
  function TopFindings(pubs: seq<Publication>, limit: int): seq<Finding> {
    var top := Head(pubs, limit);
    seq(|top|, k requires 0 <= k < |top| => Finding(top[k].id, ShortOf(top[k])))
  }

  /** The findings of the first `limit` publications, in order: a missing
      results section falls back to the conclusion, then to the abstract cut
      to 150 characters and marked with an ellipsis. */
  lemma TopFindingsSpec(pubs: seq<Publication>, limit: int)
    ensures 0 <= limit ==> |TopFindings(pubs, limit)| == IntMin(limit, |pubs|)
    ensures forall k :: 0 <= k < |TopFindings(pubs, limit)| ==>
      k < |pubs| && TopFindings(pubs, limit)[k].pubId == pubs[k].id &&
      TopFindings(pubs, limit)[k].short == ShortOf(pubs[k])
  {
    var top := Head(pubs, limit);
    var fs := TopFindings(pubs, limit);
    assert |fs| == |top|;
    forall k | 0 <= k < |fs| ensures k < |pubs| && fs[k].pubId == pubs[k].id && fs[k].short == ShortOf(pubs[k]) {
      HeadIndex(pubs, limit, k);
      assert fs[k] == Finding(top[k].id, ShortOf(top[k]));
    }
  }

  lemma ShortSpec(p: Publication)
    ensures Truthy(p.results) ==> ShortOf(p) == p.results.value
    ensures !Truthy(p.results) && Truthy(p.conclusion) ==> ShortOf(p) == p.conclusion.value
    ensures !Truthy(p.results) && !Truthy(p.conclusion) && p.abstractText.Some? ==>
      var a := p.abstractText.value;
      |ShortOf(p)| == IntMin(150, |a|) + 3 && ShortOf(p)[..IntMin(150, |a|)] == a[..IntMin(150, |a|)] &&
      (|a| <= 150 ==> Contains(ShortOf(p), a))
  {
    if !Truthy(p.results) && !Truthy(p.conclusion) && p.abstractText.Some? {
      var a := p.abstractText.value;
      if |a| <= 150 {
        assert a[..|a|] == a;
        assert ShortOf(p) == "" + a + "...";
        ContainsTrivial(a);
        ContainsInfix("", a, "...", a);
      }
    }
  }

  // The readiness index

  datatype Counts = Counts(totalPubs: nat, positiveEvidence: nat, countermeasurePubs: nat)

  datatype CategoryReport = CategoryReport(
    id: string, name: string, score: Level, numeric: int, counts: Counts,
    topFindings: seq<Finding>, designImplications: seq<string>, gapConfidence: GapConfidence)

  datatype Overall = Overall(numeric: JsNumber.Number, level: Level)

  /** The metadata; the analysis date is left out. */
  datatype Metadata = Metadata(totalPublications: nat, environment: string, minYear: int)

  datatype Analysis = Analysis(
    categories: seq<CategoryReport>, overallIndex: Overall, warning: Option<string>, metadata: Option<Metadata>)

  const NoPublicationsWarning := "No publications found for the specified criteria"
  const PositiveWords: seq<string> := ["effective", "successful", "improved", "reduced", "increased"]
  const CountermeasureWords: seq<string> := ["countermeasure", "trial", "tested", "validated", "protocol"]

  function Positive(p: Publication): bool { Mentions(EvidenceText(p), PositiveWords) }

  function Countermeasure(p: Publication): bool { Mentions(EvidenceText(p), CountermeasureWords) }

  /** `pub.year >= minYear` under JavaScript's relational comparison:
      `undefined` converts to NaN and compares false, `null` converts to 0. */
  function InYear(minYear: int): Publication -> bool {
    (p: Publication) =>
      match p.year
      case Absent => false
      case Null => 0 >= minYear
      case Year(y) => y >= minYear
  }

  /** With the default `minYear` of 0 a publication is kept exactly when its
      year is null or a number from 0 on; only a missing year is dropped.  A
      positive `minYear` drops null years too. */
  lemma YearFilterCases(p: Publication, minYear: int)
    ensures InYear(0)(p) <==> p.year.Null? || (p.year.Year? && p.year.value >= 0)
    ensures minYear > 0 ==> (InYear(minYear)(p) <==> p.year.Year? && p.year.value >= minYear)
    ensures p.year.Absent? ==> !InYear(minYear)(p)
  {
  }

  /** The publication falls in the category. */
  function InCategory(rules: seq<Rule>, id: string): Publication -> bool {
    (p: Publication) => id in CategoriesOf(rules, p)
  }

  /** The publications of a category, in order. */
  function Group(rules: seq<Rule>, pubs: seq<Publication>, id: string): seq<Publication> {
    Filter(pubs, InCategory(rules, id))
  }

  /** The report of one category over its publications. */
  function Report(rules: seq<Rule>, rule: Rule, pubs: seq<Publication>): CategoryReport {
    var score := CategoryScore(pubs);
    CategoryReport(rule.id, rule.name, score.level, score.numeric,
      Counts(|pubs|, |Filter(pubs, Positive)|, |Filter(pubs, Countermeasure)|),
      TopFindings(pubs, 3), DesignImplications(pubs, rules, rule.id), score.gapConfidence)
  }

  /** One report per rule, in rule order. */
  function Reports(rules: seq<Rule>, pubs: seq<Publication>): (rs: seq<CategoryReport>)
    ensures |rs| == |rules|
  {
    seq(|rules|, k requires 0 <= k < |rules| => Report(rules, rules[k], Group(rules, pubs, rules[k].id)))
  }

  /** The sum of the category numerics. */
  function TotalScore(rs: seq<CategoryReport>): int {
    if rs == [] then 0 else TotalScore(rs[..|rs| - 1]) + rs[|rs| - 1].numeric
  }

  /** The level of a JavaScript number: NaN compares false. */
  function NumberLevel(n: JsNumber.Number): Level {
    match n
    case Finite(x) => if x >= 70.0 then Green else if x >= 40.0 then Yellow else Red
    case NaN => Red
    case Infinity(negative) => if negative then Red else Green
  }

  /** `Math.round(totalScore / categories.length)` and its level. */
  function OverallOf(rs: seq<CategoryReport>): Overall {
    var average := JsNumber.Round(JsNumber.Div(TotalScore(rs) as real, |rs| as real));
    Overall(average, NumberLevel(average))
  }

  /** `computeMissionReadinessIndex(publications, env, minYear)`. */
  function ReadinessIndex(pubs: seq<Publication>, env: string, minYear: int, rules: seq<Rule>): Analysis {
    var filtered := Filter(pubs, InYear(minYear));
    if filtered == [] then
      Analysis([], Overall(JsNumber.Finite(0.0), Red), Some(NoPublicationsWarning), None)
    else
      var rs := Reports(rules, filtered);
      Analysis(rs, OverallOf(rs), None, Some(Metadata(|filtered|, env, minYear)))
  }

  /** The groups after some publications: every rule id maps to the
      publications so far that fall in its category. */
  ghost predicate Grouped(rules: seq<Rule>, done: seq<Publication>, groups: map<string, seq<Publication>>) {
    (forall id :: id in groups <==> id in Ids(rules)) &&
    forall id :: id in groups ==> groups[id] == Group(rules, done, id)
  }

  /** Filing one publication under each of its categories. */
  method FileUnder(rules: seq<Rule>, pub: Publication, groups: map<string, seq<Publication>>, ghost done: seq<Publication>)
    returns (groups': map<string, seq<Publication>>)
    requires DistinctIds(rules) && Grouped(rules, done, groups)
    ensures Grouped(rules, done + [pub], groups')
  {
    var matched := CategoriesOf(rules, pub);
    CategoriesDistinct(rules, CategoryText(pub));
    CategoriesWithin(rules, CategoryText(pub));
    groups' := AppendUnder(groups, matched, pub);
    forall id | id in groups' ensures groups'[id] == Group(rules, done + [pub], id) {
      GroupStep(rules, done, pub, id);
    }
  }

  /** The loop over a publication's categories: `v` is appended to the
      list of every key in `keys`, each listed once, and no other list
      changes. */
  method AppendUnder<K, V>(m: map<K, seq<V>>, keys: seq<K>, v: V) returns (m': map<K, seq<V>>)
    requires forall i, j :: 0 <= i < j < |keys| ==> keys[i] != keys[j]
    requires forall i :: 0 <= i < |keys| ==> keys[i] in m
    ensures m'.Keys == m.Keys
    ensures forall k :: k in m' ==> m'[k] == m[k] + (if k in keys then [v] else [])
  {
    m' := m;
    var j := 0;
    while j < |keys|
      invariant 0 <= j <= |keys|
      invariant m'.Keys == m.Keys
      invariant forall k :: k in m' ==> m'[k] == m[k] + (if k in keys[..j] then [v] else [])
    {
      var k := keys[j];
      assert k !in keys[..j];
      PrefixStep(keys, j);
      m' := m'[k := m'[k] + [v]];
      j := j + 1;
    }
    assert keys[..|keys|] == keys;
  }

  /** A publication joins the groups of exactly its categories. */
  lemma GroupStep(rules: seq<Rule>, done: seq<Publication>, pub: Publication, id: string)
    ensures Group(rules, done + [pub], id) == Group(rules, done, id) + (if id in CategoriesOf(rules, pub) then [pub] else [])
  {
    FilterSnoc(done, pub, InCategory(rules, id));
  }

  /** `computeMissionReadinessIndex`: the year filter, the grouping loop
      and the reports. */
  method ComputeMissionReadinessIndex(pubs: seq<Publication>, env: string, minYear: int, rules: seq<Rule>)
    returns (analysis: Analysis)
    requires DistinctIds(rules)
    ensures analysis == ReadinessIndex(pubs, env, minYear, rules)
  {
    var filtered := Filter(pubs, InYear(minYear));
    if |filtered| == 0 {
      return Analysis([], Overall(JsNumber.Finite(0.0), Red), Some(NoPublicationsWarning), None);
    }
    var groups := EmptyGroups(rules);
    groups := GroupPublications(rules, filtered, groups);
    var categories := seq(|rules|, k requires 0 <= k < |rules| => Report(rules, rules[k], groups[rules[k].id]));
    assert categories == Reports(rules, filtered) by {
      forall k | 0 <= k < |rules| ensures groups[rules[k].id] == Group(rules, filtered, rules[k].id) {
        assert Ids(rules)[k] == rules[k].id;
      }
    }
    var totalScore := TotalScore(categories);
    var averageScore := JsNumber.Round(JsNumber.Div(totalScore as real, |categories| as real));
    analysis := Analysis(categories, Overall(averageScore, NumberLevel(averageScore)), None,
      Some(Metadata(|filtered|, env, minYear)));
  }

  /** An empty group for every category id. */
  method EmptyGroups(rules: seq<Rule>) returns (groups: map<string, seq<Publication>>)
    ensures Grouped(rules, [], groups)
  {
    groups := map[];
    var i := 0;
    while i < |rules|
      invariant 0 <= i <= |rules|
      invariant forall id :: id in groups <==> id in Ids(rules[..i])
      invariant forall id :: id in groups ==> groups[id] == []
    {
      PrefixStep(rules, i);
      assert Ids(rules[..i + 1]) == Ids(rules[..i]) + [rules[i].id];
      groups := groups[rules[i].id := []];
      i := i + 1;
    }
    assert rules[..|rules|] == rules;
  }

  /** The loop filing every publication under its categories. */
  method GroupPublications(rules: seq<Rule>, pubs: seq<Publication>, empty: map<string, seq<Publication>>)
    returns (groups: map<string, seq<Publication>>)
    requires DistinctIds(rules) && Grouped(rules, [], empty)
    ensures Grouped(rules, pubs, groups)
  {
    groups := empty;
    ghost var done: seq<Publication> := [];
    var i := 0;
    while i < |pubs|
      invariant 0 <= i <= |pubs| && done == pubs[..i]
      invariant Grouped(rules, done, groups)
    {
      PrefixStep(pubs, i);
      groups := FileUnder(rules, pubs[i], groups, done);
      done := done + [pubs[i]];
      i := i + 1;
    }
    assert pubs[..|pubs|] == pubs;
  }

  /** With no publication from `minYear` on, the index is empty, zero and
      Red, with a warning. */
  lemma ReadinessEmpty(pubs: seq<Publication>, env: string, minYear: int, rules: seq<Rule>)
    requires forall k :: 0 <= k < |pubs| ==> !InYear(minYear)(pubs[k])
    ensures ReadinessIndex(pubs, env, minYear, rules) ==
      Analysis([], Overall(JsNumber.Finite(0.0), Red), Some(NoPublicationsWarning), None)
  {
    FilterNonEmpty(pubs, InYear(minYear));
  }

  /** Otherwise there is one report per rule, in rule order, over the
      category's publications from `minYear` on, and the metadata counts
      those publications. */
  lemma ReadinessSpec(pubs: seq<Publication>, env: string, minYear: int, rules: seq<Rule>)
    requires exists j :: 0 <= j < |pubs| && InYear(minYear)(pubs[j])
    ensures var a := ReadinessIndex(pubs, env, minYear, rules);
      a.warning.None? && a.metadata == Some(Metadata(|Filter(pubs, InYear(minYear))|, env, minYear)) &&
      |a.categories| == |rules| && a.overallIndex == OverallOf(a.categories)
    ensures forall k :: 0 <= k < |rules| ==>
      ReadinessIndex(pubs, env, minYear, rules).categories[k] ==
        Report(rules, rules[k], Group(rules, Filter(pubs, InYear(minYear)), rules[k].id))
  {
    var j :| 0 <= j < |pubs| && InYear(minYear)(pubs[j]);
    FilterNonEmpty(pubs, InYear(minYear));
    var filtered := Filter(pubs, InYear(minYear));
    assert filtered != [];
    var rs := Reports(rules, filtered);
    assert ReadinessIndex(pubs, env, minYear, rules) == Analysis(rs, OverallOf(rs), None, Some(Metadata(|filtered|, env, minYear)));
    forall k | 0 <= k < |rules| ensures rs[k] == Report(rules, rules[k], Group(rules, filtered, rules[k].id)) {
      ReportsAt(rules, filtered, k);
    }
  }

  lemma ReportsAt(rules: seq<Rule>, pubs: seq<Publication>, k: nat)
    requires k < |rules|
    ensures Reports(rules, pubs)[k] == Report(rules, rules[k], Group(rules, pubs, rules[k].id))
  {
  }

  /** A category's publications are exactly those from `minYear` on that
      fall in it. */
  lemma GroupSpec(pubs: seq<Publication>, minYear: int, rules: seq<Rule>, id: string, p: Publication)
    ensures p in Group(rules, Filter(pubs, InYear(minYear)), id) <==>
      p in pubs && ((p.year.Year? && p.year.value >= minYear) || (p.year.Null? && minYear <= 0)) && id in CategoriesOf(rules, p)
  {
    FilterMembership(Filter(pubs, InYear(minYear)), InCategory(rules, id), p);
    FilterMembership(pubs, InYear(minYear), p);
  }

  /** A category's counts: the evidence counts never exceed the total, and
      a publication counted for countermeasures also raises the score. */
  lemma ReportCounts(rules: seq<Rule>, rule: Rule, pubs: seq<Publication>)
    ensures var c := Report(rules, rule, pubs).counts;
      c.totalPubs == |pubs| && c.positiveEvidence <= c.totalPubs && c.countermeasurePubs <= c.totalPubs &&
      (c.countermeasurePubs > 0 ==> HasCountermeasures(pubs))
    ensures Report(rules, rule, pubs).numeric == CategoryScore(pubs).numeric
    ensures Report(rules, rule, pubs).score == CategoryScore(pubs).level
  {
    var cs := Filter(pubs, Countermeasure);
    if cs != [] {
      FilterMembership(pubs, Countermeasure, cs[0]);
      var w :| w in CountermeasureWords && Contains(EvidenceText(cs[0]), w);
      assert w in ScoreKeywords;
    }
  }

  lemma {:induction false} TotalScoreBounds(rs: seq<CategoryReport>)
    requires forall k :: 0 <= k < |rs| ==> 0 <= rs[k].numeric <= 100
    ensures 0 <= TotalScore(rs) <= 100 * |rs|
  {
    if rs != [] {
      TotalScoreBounds(rs[..|rs| - 1]);
    }
  }

  /** The overall index is the rounded mean of the category numerics, in
      0..100, with the category thresholds; without categories it is NaN,
      which reads Red. */
  lemma OverallSpec(rs: seq<CategoryReport>)
    requires forall k :: 0 <= k < |rs| ==> 0 <= rs[k].numeric <= 100
    ensures rs == [] ==> OverallOf(rs) == Overall(JsNumber.NaN, Red)
    ensures rs != [] ==>
      var v := JsRound(TotalScore(rs) as real / |rs| as real);
      OverallOf(rs) == Overall(JsNumber.Finite(v as real), LevelOf(v)) && 0 <= v <= 100
  {
    TotalScoreBounds(rs);
    if rs != [] {
      var v := JsRound(TotalScore(rs) as real / |rs| as real);
      RoundedMeanBounds(TotalScore(rs), |rs|);
      assert OverallOf(rs).numeric == JsNumber.Finite(v as real);
      LevelOfNumber(v);
    }
  }

  lemma LevelOfNumber(v: int)
    ensures NumberLevel(JsNumber.Finite(v as real)) == LevelOf(v)
  {
  }

  /** The category reports of an index all score within 0..100. */
  lemma ReportsBounded(rules: seq<Rule>, pubs: seq<Publication>)
    ensures forall k :: 0 <= k < |Reports(rules, pubs)| ==> 0 <= Reports(rules, pubs)[k].numeric <= 100
  {
    forall k | 0 <= k < |rules| ensures 0 <= Reports(rules, pubs)[k].numeric <= 100 {
      ScoreSpec(Group(rules, pubs, rules[k].id));
    }
  }
}
