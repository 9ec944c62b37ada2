/** Text handling of the cross-domain synergy agent
    (cross_domain_synergy_agent.py): `clean_text`, the per-row documents of
    `preprocess_text`, and the keyword classification of `extract_domains`.
    A cell is `None` when pandas holds NaN there. */
module CrossDomainText {
  import opened Wrappers
  import opened Text

  type Cell = Option<string>

  /** A Task Book row: Title, Abstract, Methods, Results, Conclusion. */
  datatype Row = Row(title: Cell, summary: Cell, methods: Cell, results: Cell, conclusion: Cell)

  // ---------------------------------------------------------------------
  // clean_text

  function BlankChar(c: char): char {
    if IsWordChar(c) || IsSpace(c) then c else ' '
  }

  /** `re.sub(r'[^\w\s]', ' ', text)`. */
  function BlankPunctuation(s: string): (r: string)
    ensures |r| == |s|
    ensures forall i :: 0 <= i < |s| ==> r[i] == BlankChar(s[i])
  {
    if s == [] then [] else [BlankChar(s[0])] + BlankPunctuation(s[1..])
  }

  /** `re.sub(r'\s+', ' ', text)`: every maximal run of whitespace becomes
      one space. */
  function CollapseSpaces(s: string): (r: string)
    ensures |r| <= |s|
    ensures r == [] <==> s == []
    ensures r != [] ==> (IsSpace(r[0]) <==> IsSpace(s[0])) && (!IsSpace(s[0]) ==> r[0] == s[0])
    decreases |s|
  {
    if s == [] then []
    else if IsSpace(s[0]) then [' '] + CollapseSpaces(StripLeft(s[1..]))
    else [s[0]] + CollapseSpaces(s[1..])
  }

  /** The only whitespace left by collapsing is the plain space. */
  lemma {:induction false} CollapsePlainSpaces(s: string)
    ensures forall i :: 0 <= i < |CollapseSpaces(s)| && IsSpace(CollapseSpaces(s)[i]) ==> CollapseSpaces(s)[i] == ' '
    decreases |s|
  {
    if s != [] {
      var t := if IsSpace(s[0]) then StripLeft(s[1..]) else s[1..];
      CollapsePlainSpaces(t);
      var r := CollapseSpaces(s);
      assert r == [if IsSpace(s[0]) then ' ' else s[0]] + CollapseSpaces(t);
    }
  }

  /** Every other character left by collapsing comes from the input. */
  lemma {:induction false} CollapseFromInput(s: string)
    ensures forall i :: 0 <= i < |CollapseSpaces(s)| && !IsSpace(CollapseSpaces(s)[i]) ==> CollapseSpaces(s)[i] in s
    decreases |s|
  {
    if s != [] {
      var t := if IsSpace(s[0]) then StripLeft(s[1..]) else s[1..];
      CollapseFromInput(t);
      var rest := CollapseSpaces(t);
      var r := CollapseSpaces(s);
      assert r == [if IsSpace(s[0]) then ' ' else s[0]] + rest;
      forall i | 0 <= i < |r| && !IsSpace(r[i]) ensures r[i] in s {
        if i > 0 {
          assert r[i] == rest[i - 1];
          assert r[i] in t;
        }
      }
    }
  }

  /** No two whitespace characters are adjacent after collapsing. */
  lemma {:induction false} CollapseSingle(s: string)
    ensures forall i :: 1 <= i < |CollapseSpaces(s)| ==> !(IsSpace(CollapseSpaces(s)[i - 1]) && IsSpace(CollapseSpaces(s)[i]))
    decreases |s|
  {
    if s != [] {
      var t := if IsSpace(s[0]) then StripLeft(s[1..]) else s[1..];
      CollapseSingle(t);
      var h := if IsSpace(s[0]) then ' ' else s[0];
      NoAdjacentCons(h, CollapseSpaces(t), CollapseSpaces(s), IsSpace);
    }
  }

  /** Putting `h` in front of a sequence without two adjacent p-elements
      keeps that property when h is not p or the sequence does not start
      with a p-element. */
  lemma NoAdjacentCons<T>(h: T, rest: seq<T>, r: seq<T>, p: T -> bool)
    requires r == [h] + rest
    requires forall i :: 1 <= i < |rest| ==> !(p(rest[i - 1]) && p(rest[i]))
    requires p(h) ==> rest == [] || !p(rest[0])
    ensures forall i :: 1 <= i < |r| ==> !(p(r[i - 1]) && p(r[i]))
  {
    forall i | 1 <= i < |r| ensures !(p(r[i - 1]) && p(r[i])) {
      assert r[i] == rest[i - 1];
      if i > 1 { assert r[i - 1] == rest[i - 2]; }
    }
  }

  /** A cleaned text: lower-case word characters separated by single spaces. */
  predicate Tidy(s: string) {
    (forall i :: 0 <= i < |s| ==> s[i] == ' ' || (IsWordChar(s[i]) && !IsUpper(s[i]))) &&
    (s == [] || (s[0] != ' ' && s[|s| - 1] != ' ')) &&
    (forall i :: 1 <= i < |s| ==> !(s[i - 1] == ' ' && s[i] == ' '))
  }

  /** `clean_text`: NaN gives ""; otherwise lower-case, blank out
      punctuation, collapse whitespace, strip. */
  function CleanText(c: Cell): (r: string)
    ensures c.None? ==> r == ""
  {
    match c
    case None => ""
    case Some(s) => Strip(CollapseSpaces(BlankPunctuation(Lower(s))))
  }

  /** The stripped string is a contiguous piece of the input. */
  lemma StripSlice(s: string) returns (k: nat)
    ensures k + |Strip(s)| <= |s| && Strip(s) == s[k..k + |Strip(s)|]
  {
    var l := StripLeft(s);
    k := |s| - |l|;
    assert Strip(s) == StripRight(l) == l[..|StripRight(l)|];
  }

  /** Lower-case word characters and whitespace only. */
  predicate Tokens(s: string) {
    forall i :: 0 <= i < |s| ==> IsSpace(s[i]) || (IsWordChar(s[i]) && !IsUpper(s[i]))
  }

  lemma TokensBlanked(s: string)
    ensures Tokens(BlankPunctuation(Lower(s)))
  {
    var l := Lower(s);
    var p := BlankPunctuation(l);
    forall i | 0 <= i < |p| ensures IsSpace(p[i]) || (IsWordChar(p[i]) && !IsUpper(p[i])) {
      assert p[i] == BlankChar(l[i]);
    }
  }

  /** Lower-case word characters and single plain spaces. */
  predicate Spaced(q: string) {
    (forall i :: 0 <= i < |q| ==> q[i] == ' ' || (IsWordChar(q[i]) && !IsUpper(q[i]))) &&
    (forall i :: 1 <= i < |q| ==> !(q[i - 1] == ' ' && q[i] == ' '))
  }

  lemma CollapseTokens(p: string)
    requires Tokens(p)
    ensures Spaced(CollapseSpaces(p))
  {
    CollapsePlainSpaces(p);
    CollapseFromInput(p);
    CollapseSingle(p);
    var q := CollapseSpaces(p);
    forall i | 0 <= i < |q| ensures q[i] == ' ' || (IsWordChar(q[i]) && !IsUpper(q[i])) {
      if !IsSpace(q[i]) {
        var k :| 0 <= k < |p| && p[k] == q[i];
      }
    }
  }

  lemma StripTidy(q: string)
    requires Spaced(q)
    ensures Tidy(Strip(q))
  {
    var r := Strip(q);
    var k := StripSlice(q);
    assert forall i :: 0 <= i < |r| ==> r[i] == q[k + i];
    forall i | 1 <= i < |r| ensures !(r[i - 1] == ' ' && r[i] == ' ') {
      assert r[i - 1] == q[k + i - 1];
    }
  }

  /** The result of `clean_text` has no upper-case letter, no punctuation,
      no whitespace but single spaces, and none at either end. */
  lemma CleanTextTidy(c: Cell)
    ensures Tidy(CleanText(c))
  {
    if c.Some? {
      var p := BlankPunctuation(Lower(c.value));
      TokensBlanked(c.value);
      CollapseTokens(p);
      StripTidy(CollapseSpaces(p));
    }
  }

  lemma {:induction false} CollapseTidy(s: string)
    requires forall i :: 0 <= i < |s| && IsSpace(s[i]) ==> s[i] == ' '
    requires forall i :: 1 <= i < |s| ==> !(IsSpace(s[i - 1]) && IsSpace(s[i]))
    ensures CollapseSpaces(s) == s
    decreases |s|
  {
    if s != [] {
      var t := s[1..];
      NoAdjacentTail(s, IsSpace, ' ');
      CollapseTidy(t);
      if IsSpace(s[0]) {
        assert StripLeft(t) == t;
      }
    }
  }

  /** The tail of a sequence whose p-elements all equal c and are never
      adjacent has the same two properties, and does not start with a
      p-element when the sequence does. */
  lemma NoAdjacentTail<T>(s: seq<T>, p: T -> bool, c: T)
    requires s != []
    requires forall i :: 0 <= i < |s| && p(s[i]) ==> s[i] == c
    requires forall i :: 1 <= i < |s| ==> !(p(s[i - 1]) && p(s[i]))
    ensures forall i :: 0 <= i < |s[1..]| && p(s[1..][i]) ==> s[1..][i] == c
    ensures forall i :: 1 <= i < |s[1..]| ==> !(p(s[1..][i - 1]) && p(s[1..][i]))
    ensures p(s[0]) ==> s[1..] == [] || !p(s[1..][0])
  {
    var t := s[1..];
    assert forall i :: 1 <= i < |t| ==> t[i - 1] == s[i] && t[i] == s[i + 1];
  }

  lemma TidyFixed(s: string)
    requires Tidy(s)
    ensures Strip(CollapseSpaces(BlankPunctuation(Lower(s)))) == s
  {
    var l := Lower(s);
    assert l == s by {
      forall i | 0 <= i < |s| ensures l[i] == s[i] { }
    }
    var p := BlankPunctuation(s);
    assert p == s by {
      forall i | 0 <= i < |s| ensures p[i] == s[i] { assert p[i] == BlankChar(s[i]); }
    }
    CollapseTidy(s);
    assert StripLeft(s) == s;
    assert StripRight(s) == s;
  }

  /** Cleaning a cleaned text changes nothing. */
  lemma CleanTextIdempotent(c: Cell)
    ensures CleanText(Some(CleanText(c))) == CleanText(c)
  {
    CleanTextTidy(c);
    TidyFixed(CleanText(c));
  }

  /** One document of `preprocess_text`: the five cleaned fields joined by
      single spaces. */
  function Document(r: Row): string {
    Join([CleanText(r.title), CleanText(r.summary), CleanText(r.methods),
          CleanText(r.results), CleanText(r.conclusion)], " ")
  }

  lemma TidyJoin(a: string, b: string)
    requires Tidy(a) && Tidy(b) && a != [] && b != []
    ensures Tidy(a + " " + b)
  {
    var s := a + " " + b;
    forall i | 1 <= i < |s| ensures !(s[i - 1] == ' ' && s[i] == ' ') {
      if i < |a| { assert s[i - 1] == a[i - 1] && s[i] == a[i]; }
      else if i == |a| { assert s[i - 1] == a[|a| - 1]; }
      else if i == |a| + 1 { assert s[i] == b[0]; }
      else { assert s[i - 1] == b[i - |a| - 2] && s[i] == b[i - |a| - 1]; }
    }
    forall i | 0 <= i < |s| ensures s[i] == ' ' || (IsWordChar(s[i]) && !IsUpper(s[i])) {
      if i < |a| { assert s[i] == a[i]; }
      else if i > |a| { assert s[i] == b[i - |a| - 1]; }
    }
  }

  lemma JoinTidy(parts: seq<string>)
    requires forall k :: 0 <= k < |parts| ==> Tidy(parts[k]) && parts[k] != []
    ensures Tidy(Join(parts, " "))
  {
    if |parts| > 1 {
      JoinTidy(parts[1..]);
      TidyJoin(parts[0], Join(parts[1..], " "));
    }
  }

  lemma JoinFiveTidy(a: string, b: string, c: string, d: string, e: string)
    requires Tidy(a) && Tidy(b) && Tidy(c) && Tidy(d) && Tidy(e)
    requires a != [] && b != [] && c != [] && d != [] && e != []
    ensures Tidy(Join([a, b, c, d, e], " "))
  {
    JoinTidy([a, b, c, d, e]);
  }

  /** A document whose five fields are all non-empty is itself a clean text;
      an empty field leaves a doubled or an outer space. */
  lemma DocumentTidy(r: Row)
    requires CleanText(r.title) != [] && CleanText(r.summary) != [] && CleanText(r.methods) != []
    requires CleanText(r.results) != [] && CleanText(r.conclusion) != []
    ensures Tidy(Document(r))
  {
    CleanTextTidy(r.title);
    CleanTextTidy(r.summary);
    CleanTextTidy(r.methods);
    CleanTextTidy(r.results);
    CleanTextTidy(r.conclusion);
    JoinFiveTidy(CleanText(r.title), CleanText(r.summary), CleanText(r.methods),
                 CleanText(r.results), CleanText(r.conclusion));
  }

  /** An empty title makes the document start with a space. */
  lemma DocumentEmptyTitle(r: Row)
    requires CleanText(r.title) == []
    ensures Document(r)[0] == ' '
  {
    JoinEmptyFirst([CleanText(r.title), CleanText(r.summary), CleanText(r.methods),
                    CleanText(r.results), CleanText(r.conclusion)]);
  }

  lemma JoinEmptyFirst(parts: seq<string>)
    requires |parts| >= 2 && parts[0] == []
    ensures |Join(parts, " ")| > 0 && Join(parts, " ")[0] == ' '
  {
    assert Join(parts, " ") == [] + " " + Join(parts[1..], " ");
  }

  // ---------------------------------------------------------------------
  // extract_domains

  const OtherDomain := "Other"

  /** The keyword table, in dictionary order. */
  const DomainKeywords: seq<(string, seq<string>)> := [
    ("Space Biology", ["biology", "biological", "cell", "cellular", "tissue", "muscle", "bone",
      "immune", "cardiovascular", "neural", "endocrine", "physiology", "metabolism",
      "protein", "gene", "dna", "rna", "stem cell", "regeneration", "microgravity",
      "spaceflight", "radiation", "oxidative", "apoptosis", "differentiation"]),
    ("Human Research", ["human", "astronaut", "crew", "behavior", "psychology", "cognitive",
      "performance", "fatigue", "sleep", "circadian", "stress", "adaptation",
      "countermeasure", "exercise", "nutrition", "health", "medical"]),
    ("Physical Sciences", ["physics", "fluid", "combustion", "crystal", "material", "thermal",
      "optical", "laser", "plasma", "electromagnetic", "gravity", "mechanics",
      "dynamics", "thermodynamics", "quantum", "atomic", "molecular"]),
    ("Technology Development", ["technology", "engineering", "system", "instrument", "sensor",
      "robotic", "automation", "software", "algorithm", "data", "communication",
      "navigation", "propulsion", "power", "energy", "structure"]),
    ("Earth Science", ["earth", "climate", "atmosphere", "ocean", "land", "ecosystem",
      "environment", "remote sensing", "satellite", "observation", "monitoring"]),
    ("Planetary Science", ["planet", "mars", "moon", "asteroid", "comet", "solar", "space",
      "exploration", "mission", "rover", "lander", "orbiter"])
  ]

  /** `str(cell)`: NaN prints as "nan". */
  function Str(c: Cell): string {
    match c
    case None => "nan"
    case Some(s) => s
  }

  /** The text classified: title and abstract, lower-cased. */
  function DomainText(r: Row): string {
    Lower(Str(r.title) + " " + Str(r.summary))
  }

  /** The number of keywords that occur in `text`. */
  function KeywordScore(text: string, kws: seq<string>): (n: nat)
    ensures n <= |kws|
    ensures n > 0 <==> exists k :: 0 <= k < |kws| && Contains(text, kws[k])
  {
    if kws == [] then 0
    else
      var rest := KeywordScore(text, kws[1..]);
      assert forall k :: 1 <= k < |kws| ==> kws[k] == kws[1..][k - 1];
      (if Contains(text, kws[0]) then 1 else 0) + rest
  }

  /** `domain_scores`, in dictionary order. */
  function DomainScores(text: string): (s: seq<nat>)
    ensures |s| == |DomainKeywords|
    ensures forall k :: 0 <= k < |s| ==> s[k] == KeywordScore(text, DomainKeywords[k].1)
  {
    seq(|DomainKeywords|, k requires 0 <= k < |DomainKeywords| => KeywordScore(text, DomainKeywords[k].1))
  }

  /** `max(scores, key=scores.get)`: the first index holding the largest value. */
  function FirstMax(xs: seq<nat>): (k: nat)
    requires xs != []
    ensures k < |xs|
    ensures forall i :: 0 <= i < |xs| ==> xs[i] <= xs[k]
    ensures forall i :: 0 <= i < k ==> xs[i] < xs[k]
  {
    if |xs| == 1 then 0
    else
      var k := FirstMax(xs[..|xs| - 1]);
      if xs[|xs| - 1] > xs[k] then |xs| - 1 else k
  }

  /** The name of the first entry with the largest score, or `other` when
      every score is zero. */
  function Pick<K>(scores: seq<nat>, table: seq<(string, K)>, other: string): string
    requires |scores| == |table| > 0
  {
    var k := FirstMax(scores);
    if scores[k] > 0 then table[k].0 else other
  }

  /** `other` exactly when every score is zero; otherwise the name of the
      entry with the largest score, the earliest one on a tie. */
  lemma PickSpec<K>(scores: seq<nat>, table: seq<(string, K)>, other: string)
    requires |scores| == |table| > 0
    requires forall i :: 0 <= i < |table| ==> table[i].0 != other
    ensures Pick(scores, table, other) == other <==> forall i :: 0 <= i < |scores| ==> scores[i] == 0
    ensures Pick(scores, table, other) != other ==>
      exists k :: 0 <= k < |table| && Pick(scores, table, other) == table[k].0 &&
        (forall i :: 0 <= i < |scores| ==> scores[i] <= scores[k]) &&
        (forall i :: 0 <= i < k ==> scores[i] < scores[k])
  {
  }

  /** No domain of the table is called 'Other'. */
  lemma DomainNamesNotOther()
    ensures forall i :: 0 <= i < |DomainKeywords| ==> DomainKeywords[i].0 != OtherDomain
  {
  }

  /** The domain `extract_domains` assigns to a text. */
  function AssignDomain(text: string): string {
    Pick(DomainScores(text), DomainKeywords, OtherDomain)
  }

  /** 'Other' exactly when no keyword of any domain occurs; otherwise the
      domain with the most matching keywords, the earliest one on a tie. */
  lemma AssignDomainSpec(text: string)
    ensures AssignDomain(text) == OtherDomain <==>
      forall k :: 0 <= k < |DomainKeywords| ==> KeywordScore(text, DomainKeywords[k].1) == 0
    ensures AssignDomain(text) != OtherDomain ==>
      exists k :: 0 <= k < |DomainKeywords| && AssignDomain(text) == DomainKeywords[k].0 &&
        (forall i :: 0 <= i < |DomainKeywords| ==> DomainScores(text)[i] <= DomainScores(text)[k]) &&
        (forall i :: 0 <= i < k ==> DomainScores(text)[i] < DomainScores(text)[k])
  {
    DomainNamesNotOther();
    PickSpec(DomainScores(text), DomainKeywords, OtherDomain);
  }

  /** The domain of one row. */
  function RowDomain(r: Row): string {
    AssignDomain(DomainText(r))
  }

  /** The domain list of `extract_domains`, one entry per row. */
  function DomainMapping(rows: seq<Row>): (d: seq<string>)
    ensures |d| == |rows|
    ensures forall i :: 0 <= i < |rows| ==> d[i] == RowDomain(rows[i])
  {
    seq(|rows|, i requires 0 <= i < |rows| => RowDomain(rows[i]))
  }

  /** The inner loop of `extract_domains`: one score per domain. */
  method ScoreDomains(text: string) returns (scores: seq<nat>)
    ensures scores == DomainScores(text)
  {
    scores := [];
    var k := 0;
    while k < |DomainKeywords|
      invariant 0 <= k <= |DomainKeywords|
      invariant scores == DomainScores(text)[..k]
    {
      scores := scores + [KeywordScore(text, DomainKeywords[k].1)];
      k := k + 1;
    }
    assert k == |DomainKeywords|;
  }

  /** The body of the row loop of `extract_domains`: scores, then the best domain. */
  method ClassifyRow(r: Row) returns (d: string)
    ensures d == RowDomain(r)
  {
    var text := DomainText(r);
    var scores := ScoreDomains(text);
    var k := FirstMax(scores);
    d := if scores[k] > 0 then DomainKeywords[k].0 else OtherDomain;
  }

  /** `extract_domains` over all rows. */
  method ExtractDomains(rows: seq<Row>) returns (mapping: seq<string>)
    ensures mapping == DomainMapping(rows)
  {
    mapping := [];
    var i := 0;
    while i < |rows|
      invariant 0 <= i <= |rows|
      invariant |mapping| == i
      invariant forall k :: 0 <= k < i ==> mapping[k] == RowDomain(rows[k])
    {
      var d := ClassifyRow(rows[i]);
      MappedAppend(rows, mapping, d, RowDomain);
      mapping := mapping + [d];
      i := i + 1;
    }
    assert i == |rows|;
  }

  /** `preprocess_text` over all rows. */
  method PreprocessTexts(rows: seq<Row>) returns (docs: seq<string>)
    ensures |docs| == |rows|
    ensures forall i :: 0 <= i < |rows| ==> docs[i] == Document(rows[i])
  {
    docs := [];
    var i := 0;
    while i < |rows|
      invariant 0 <= i <= |rows|
      invariant |docs| == i
      invariant forall k :: 0 <= k < i ==> docs[k] == Document(rows[k])
    {
      var d := Document(rows[i]);
      MappedAppend(rows, docs, d, Document);
      docs := docs + [d];
      i := i + 1;
    }
    assert i == |rows|;
  }

  /** Appending f(xs[|ys|]) to the images of the first |ys| elements of xs
      gives the images of one element more. */
  lemma MappedAppend<T, U>(xs: seq<T>, ys: seq<U>, y: U, f: T -> U)
    requires |ys| < |xs| && y == f(xs[|ys|])
    requires forall k :: 0 <= k < |ys| ==> ys[k] == f(xs[k])
    ensures forall k :: 0 <= k < |ys| + 1 ==> (ys + [y])[k] == f(xs[k])
  {
  }
}
