/** The paper lists of the front end: the papers page (a text search, a
    methodology filter and a year filter, three sort orders, and the option
    lists of the two filters), the search page (a text search that also
    reads the journal) and the filter panel of the scientist dashboard.
    Selecting a paper on any of them is `AppStore.Store.SelectPaper`. */
module PaperLists {
  import opened Text
  import opened Sorting
  import opened Wrappers

  /** A paper as the front end receives it.  `publishedAt` stands for
      `new Date(publicationDate).getTime()`. */
  datatype Paper = Paper(
    id: string, title: string, link: string, authors: seq<string>, abstractText: string,
    publicationDate: string, journal: string, keywords: seq<string>, citations: int,
    methodology: Option<string>, publishedAt: int)

  /** `text.toLowerCase().includes(term.toLowerCase())`. */
  predicate Includes(text: string, term: string) {
    Contains(Lower(text), Lower(term))
  }

  /** `texts.some(t => t.toLowerCase().includes(term.toLowerCase()))`. */
  predicate SomeIncludes(texts: seq<string>, term: string) {
    exists k :: 0 <= k < |texts| && Includes(texts[k], term)
  }

  /** The match ignores letter case on both sides. */
  lemma IncludesIgnoresCase(text: string, term: string)
    ensures Includes(Lower(text), term) == Includes(text, term)
    ensures Includes(text, Lower(term)) == Includes(text, term)
  {
    LowerIdempotent(text);
    LowerIdempotent(term);
  }

  // The papers page

  /** `matchesSearch`: an empty term, or the term in the title, the
      abstract, an author or a keyword. */
  predicate MatchesSearch(p: Paper, term: string) {
    term == "" || Includes(p.title, term) || Includes(p.abstractText, term) ||
    SomeIncludes(p.authors, term) || SomeIncludes(p.keywords, term)
  }

  /** `matchesMethodology`: 'all', or a methodology containing the filter;
      a paper without a methodology never passes another filter. */
  predicate MatchesMethodology(p: Paper, filter: string) {
    filter == "all" || (p.methodology.Some? && Includes(p.methodology.value, filter))
  }

  /** `matchesYear`: 'all', or a publication date containing the year. */
  predicate MatchesYear(p: Paper, year: string) {
    year == "all" || Contains(p.publicationDate, year)
  }

  predicate PapersPageMatch(p: Paper, search: string, methodology: string, year: string) {
    MatchesSearch(p, search) && MatchesMethodology(p, methodology) && MatchesYear(p, year)
  }

  function PapersPageFilter(search: string, methodology: string, year: string): Paper -> bool {
    p => PapersPageMatch(p, search, methodology, year)
  }

  /** The three sort orders; any `sortBy` other than 'citations' and
      'title' sorts by date. */
  datatype SortOrder = ByCitations | ByTitle | ByDate

  function SortOrderOf(sortBy: string): SortOrder {
    if sortBy == "citations" then ByCitations else if sortBy == "title" then ByTitle else ByDate
  }

  /** Lexicographic order on character codes. */
  predicate StrLe(a: string, b: string) {
    a == [] || (b != [] && (a[0] < b[0] || (a[0] == b[0] && StrLe(a[1..], b[1..]))))
  }

  lemma {:induction false} StrLeTotal(a: string, b: string)
    ensures StrLe(a, b) || StrLe(b, a)
  {
    if a != [] && b != [] && a[0] == b[0] {
      StrLeTotal(a[1..], b[1..]);
    }
  }

  lemma {:induction false} StrLeTransitive(a: string, b: string, c: string)
    requires StrLe(a, b) && StrLe(b, c)
    ensures StrLe(a, c)
  {
    if a != [] && a[0] == b[0] && b[0] == c[0] {
      StrLeTransitive(a[1..], b[1..], c[1..]);
    }
  }

  lemma {:induction false} StrLeAntisymmetric(a: string, b: string)
    requires StrLe(a, b) && StrLe(b, a)
    ensures a == b
  {
    if a != [] {
      StrLeAntisymmetric(a[1..], b[1..]);
      assert a == [a[0]] + a[1..] && b == [b[0]] + b[1..];
    }
  }

  /** `b.citations - a.citations`: more citations first. */
  function CitationsGe(a: Paper, b: Paper): bool { a.citations >= b.citations }

  /** `a.title.localeCompare(b.title)`: titles in ascending order. */
  function TitleGe(a: Paper, b: Paper): bool { StrLe(a.title, b.title) }

  /** The difference of the two dates: newest first. */
  function DateGe(a: Paper, b: Paper): bool { a.publishedAt >= b.publishedAt }

  function Comparator(order: SortOrder): (Paper, Paper) -> bool {
    match order
    case ByCitations => CitationsGe
    case ByTitle => TitleGe
    case ByDate => DateGe
  }

  /** Each comparator is consistent. */
  lemma ComparatorConsistent(order: SortOrder)
    ensures TotalPreorder(Comparator(order))
  {
    match order
    case ByCitations =>
    case ByDate =>
    case ByTitle =>
      forall a: Paper, b: Paper ensures TitleGe(a, b) || TitleGe(b, a) {
        StrLeTotal(a.title, b.title);
      }
      forall a: Paper, b: Paper, c: Paper | TitleGe(a, b) && TitleGe(b, c) ensures TitleGe(a, c) {
        StrLeTransitive(a.title, b.title, c.title);
      }
  }

  /** `papers.filter(...).sort(...)` of the papers page. */
  function FilteredPapers(papers: seq<Paper>, search: string, methodology: string, year: string, sortBy: string): seq<Paper> {
    SortBy(Filter(papers, PapersPageFilter(search, methodology, year)), Comparator(SortOrderOf(sortBy)))
  }

  /** A sorted list holds exactly the papers that match, each as often as
      in the input, in the chosen order, with tied papers in input order. */
  lemma SortedSelection(papers: seq<Paper>, p: Paper -> bool, order: SortOrder, x: Paper, v: Paper)
    ensures var r := SortBy(Filter(papers, p), Comparator(order));
      (x in r <==> x in papers && p(x)) &&
      multiset(r) == multiset(Filter(papers, p)) &&
      SortedBy(r, Comparator(order)) &&
      TiesWith(r, v, Comparator(order)) == TiesWith(Filter(papers, p), v, Comparator(order))
  {
    var f := Filter(papers, p);
    FilterMembership(papers, p, x);
    assert x in SortBy(f, Comparator(order)) <==> x in multiset(SortBy(f, Comparator(order)));
    ComparatorConsistent(order);
    SortBySorted(f, Comparator(order));
    SortByStable(f, v, Comparator(order));
  }

  /** The papers page shows exactly the papers passing all three filters,
      sorted by the chosen order, with ties in the order they arrived. */
  lemma FilteredPapersSpec(papers: seq<Paper>, search: string, methodology: string, year: string, sortBy: string, x: Paper, v: Paper)
    ensures var r := FilteredPapers(papers, search, methodology, year, sortBy);
      var ge := Comparator(SortOrderOf(sortBy));
      (x in r <==> x in papers && PapersPageMatch(x, search, methodology, year)) &&
      multiset(r) == multiset(Filter(papers, PapersPageFilter(search, methodology, year))) &&
      |r| <= |papers| &&
      SortedBy(r, ge) &&
      TiesWith(r, v, ge) == TiesWith(Filter(papers, PapersPageFilter(search, methodology, year)), v, ge)
  {
    SortedSelection(papers, PapersPageFilter(search, methodology, year), SortOrderOf(sortBy), x, v);
  }

  /** What each sort order means for neighbours in the list. */
  lemma SortOrderSpec(r: seq<Paper>, sortBy: string, i: nat, j: nat)
    requires SortedBy(r, Comparator(SortOrderOf(sortBy))) && i < j < |r|
    ensures sortBy == "citations" ==> r[i].citations >= r[j].citations
    ensures sortBy == "title" ==> StrLe(r[i].title, r[j].title)
    ensures sortBy != "citations" && sortBy != "title" ==> r[i].publishedAt >= r[j].publishedAt
  {
    assert Comparator(SortOrderOf(sortBy))(r[i], r[j]);
  }

  /** With the search cleared and both filters at 'all' every paper is
      shown: the list is a reordering of the page. */
  lemma UnfilteredShowsAll(papers: seq<Paper>, sortBy: string)
    ensures multiset(FilteredPapers(papers, "", "all", "all", sortBy)) == multiset(papers)
  {
    FilterKeepsAll(papers, PapersPageFilter("", "all", "all"));
  }

  /** `papers.map(p => p.methodology).filter(Boolean)`. */
  function Methodologies(papers: seq<Paper>): seq<string> {
    if papers == [] then []
    else
      (if papers[0].methodology.Some? && papers[0].methodology.value != "" then [papers[0].methodology.value] else []) +
      Methodologies(papers[1..])
  }

  lemma {:induction false} MethodologiesSpec(papers: seq<Paper>, m: string)
    ensures m in Methodologies(papers) <==> m != "" && exists k :: 0 <= k < |papers| && papers[k].methodology == Some(m)
  {
    if papers != [] {
      MethodologiesSpec(papers[1..], m);
      if exists k :: 0 <= k < |papers[1..]| && papers[1..][k].methodology == Some(m) {
        var k :| 0 <= k < |papers[1..]| && papers[1..][k].methodology == Some(m);
        assert papers[k + 1].methodology == Some(m);
      }
      if exists k :: 0 <= k < |papers| && papers[k].methodology == Some(m) {
        var k :| 0 <= k < |papers| && papers[k].methodology == Some(m);
        if k > 0 {
          assert papers[1..][k - 1].methodology == Some(m);
        }
      }
    }
  }

  /** `getUniqueMethodologies`: `[...new Set(methodologies)]`. */
  function UniqueMethodologies(papers: seq<Paper>): seq<string> {
    Distinct(Methodologies(papers))
  }

  /** The options are the non-empty methodologies of the papers, each once,
      in the order the papers first name them. */
  lemma UniqueMethodologiesSpec(papers: seq<Paper>, m: string, i: nat, j: nat)
    ensures var u := UniqueMethodologies(papers);
      (m in u <==> m != "" && exists k :: 0 <= k < |papers| && papers[k].methodology == Some(m)) &&
      (i < j < |u| ==> u[i] != u[j] && FirstIndex(Methodologies(papers), u[i]) < FirstIndex(Methodologies(papers), u[j]))
  {
    MethodologiesSpec(papers, m);
    if i < j < |UniqueMethodologies(papers)| {
      DistinctFirstOrder(Methodologies(papers), i, j);
    }
  }

  /** `date.split('-')[0]`. */
  function YearOf(date: string): string {
    SplitOn(date, '-')[0]
  }

  /** The first part of a split is a prefix of the string. */
  lemma {:induction false} SplitFirstPrefix(s: string, c: char)
    ensures var w := SplitOn(s, c)[0]; |w| <= |s| && s[..|w|] == w
  {
    if s != [] && s[0] != c {
      SplitFirstPrefix(s[1..], c);
      var w := SplitOn(s[1..], c)[0];
      assert SplitOn(s, c)[0] == [s[0]] + w;
      assert s[..|w| + 1] == [s[0]] + s[1..][..|w|];
    }
  }

  /** The year is the date's prefix before the first '-', so every date
      contains its year. */
  lemma YearOfSpec(date: string)
    ensures '-' !in YearOf(date)
    ensures |YearOf(date)| <= |date| && date[..|YearOf(date)|] == YearOf(date)
    ensures Contains(date, YearOf(date))
  {
    SplitFirstPrefix(date, '-');
    ContainsIff(date, YearOf(date));
    assert OccursAt(date, YearOf(date), 0);
  }

  /** `papers.map(p => p.publicationDate.split('-')[0]).filter(Boolean)`. */
  function Years(papers: seq<Paper>): seq<string> {
    if papers == [] then []
    else (if YearOf(papers[0].publicationDate) != "" then [YearOf(papers[0].publicationDate)] else []) + Years(papers[1..])
  }

  lemma {:induction false} YearsSpec(papers: seq<Paper>, y: string)
    ensures y in Years(papers) <==> y != "" && exists k :: 0 <= k < |papers| && YearOf(papers[k].publicationDate) == y
  {
    if papers != [] {
      YearsSpec(papers[1..], y);
      if exists k :: 0 <= k < |papers[1..]| && YearOf(papers[1..][k].publicationDate) == y {
        var k :| 0 <= k < |papers[1..]| && YearOf(papers[1..][k].publicationDate) == y;
        assert YearOf(papers[k + 1].publicationDate) == y;
      }
      if exists k :: 0 <= k < |papers| && YearOf(papers[k].publicationDate) == y {
        var k :| 0 <= k < |papers| && YearOf(papers[k].publicationDate) == y;
        if k > 0 {
          assert YearOf(papers[1..][k - 1].publicationDate) == y;
        }
      }
    }
  }

  /** `b.localeCompare(a)`: later years first. */
  function YearGe(a: string, b: string): bool { StrLe(b, a) }

  lemma YearGeConsistent()
    ensures TotalPreorder(YearGe)
  {
    forall a: string, b: string ensures YearGe(a, b) || YearGe(b, a) {
      StrLeTotal(a, b);
    }
    forall a: string, b: string, c: string | YearGe(a, b) && YearGe(b, c) ensures YearGe(a, c) {
      StrLeTransitive(c, b, a);
    }
  }

  /** `getUniqueYears`: the distinct years, latest first. */
  function UniqueYears(papers: seq<Paper>): seq<string> {
    SortBy(Distinct(Years(papers)), YearGe)
  }

  /** The year options are the non-empty years of the papers, each once, in
      strictly descending order. */
  lemma UniqueYearsSpec(papers: seq<Paper>, y: string, i: nat, j: nat)
    ensures var u := UniqueYears(papers);
      (y in u <==> y != "" && exists k :: 0 <= k < |papers| && YearOf(papers[k].publicationDate) == y) &&
      (i < j < |u| ==> u[i] != u[j] && StrLe(u[j], u[i]) && !StrLe(u[i], u[j]))
  {
    var d := Distinct(Years(papers));
    var u := UniqueYears(papers);
    YearsSpec(papers, y);
    assert y in u <==> y in multiset(u);
    assert y in d <==> y in multiset(d);
    YearGeConsistent();
    SortBySorted(d, YearGe);
    if i < j < |u| {
      DistinctOnce(d, u, i, j);
      assert YearGe(u[i], u[j]);
      if StrLe(u[i], u[j]) {
        StrLeAntisymmetric(u[i], u[j]);
      }
    }
  }

  /** Picking a listed year keeps every paper that year was taken from. */
  lemma YearOptionKeepsItsPapers(papers: seq<Paper>, k: nat)
    requires k < |papers|
    ensures MatchesYear(papers[k], YearOf(papers[k].publicationDate))
  {
    YearOfSpec(papers[k].publicationDate);
  }

  /** The view state of the papers page. */
  datatype PapersView = PapersView(page: int, search: string, sortBy: string, methodology: string, year: string)

  /** `handlePageChange`: go to `page` and reset the search and both filters. */
  function PageChange(v: PapersView, page: int): PapersView {
    v.(page := page, search := "", methodology := "all", year := "all")
  }

  /** The list the papers page shows for a view. */
  function ShownPapers(papers: seq<Paper>, v: PapersView): seq<Paper> {
    FilteredPapers(papers, v.search, v.methodology, v.year, v.sortBy)
  }

  /** After a page change the whole new page is shown, still in the chosen
      sort order. */
  lemma PageChangeShowsAll(papers: seq<Paper>, v: PapersView, page: int)
    ensures PageChange(v, page).page == page && PageChange(v, page).sortBy == v.sortBy
    ensures multiset(ShownPapers(papers, PageChange(v, page))) == multiset(papers)
    ensures SortedBy(ShownPapers(papers, PageChange(v, page)), Comparator(SortOrderOf(v.sortBy)))
  {
    UnfilteredShowsAll(papers, v.sortBy);
    ComparatorConsistent(SortOrderOf(v.sortBy));
    SortBySorted(Filter(papers, PapersPageFilter("", "all", "all")), Comparator(SortOrderOf(v.sortBy)));
  }

  // The search page

  /** The search page's match: the papers page's search, or the journal. */
  predicate SearchPageMatch(p: Paper, term: string) {
    MatchesSearch(p, term) || Includes(p.journal, term)
  }

  function SearchPageFilter(term: string): Paper -> bool {
    p => SearchPageMatch(p, term)
  }

  /** `filteredPapers` of the search page. */
  function SearchResults(papers: seq<Paper>, term: string, sortBy: string): seq<Paper> {
    SortBy(Filter(papers, SearchPageFilter(term)), Comparator(SortOrderOf(sortBy)))
  }

  /** The search page shows exactly the papers that match the term, sorted
      by the chosen order, never more than it was given; an empty term
      shows them all. */
  lemma SearchResultsSpec(papers: seq<Paper>, term: string, sortBy: string, x: Paper, v: Paper)
    ensures var r := SearchResults(papers, term, sortBy);
      var ge := Comparator(SortOrderOf(sortBy));
      (x in r <==> x in papers && SearchPageMatch(x, term)) &&
      |r| <= |papers| &&
      SortedBy(r, ge) &&
      TiesWith(r, v, ge) == TiesWith(Filter(papers, SearchPageFilter(term)), v, ge) &&
      (term == "" ==> multiset(r) == multiset(papers))
  {
    SortedSelection(papers, SearchPageFilter(term), SortOrderOf(sortBy), x, v);
    if term == "" {
      FilterKeepsAll(papers, SearchPageFilter(term));
    }
  }

  // The scientist dashboard

  /** `matchesKeyword` and `matchesTopic`: an empty filter, or the filter
      in the title, the abstract or a keyword (authors are not read). */
  predicate MatchesText(p: Paper, term: string) {
    term == "" || Includes(p.title, term) || Includes(p.abstractText, term) || SomeIncludes(p.keywords, term)
  }

  predicate DashboardMatch(p: Paper, keyword: string, topic: string) {
    MatchesText(p, keyword) && MatchesText(p, topic)
  }

  function DashboardFilter(keyword: string, topic: string): Paper -> bool {
    p => DashboardMatch(p, keyword, topic)
  }

  /** `filteredPapers` of the scientist dashboard (not sorted). */
  function DashboardPapers(papers: seq<Paper>, keyword: string, topic: string): seq<Paper> {
    Filter(papers, DashboardFilter(keyword, topic))
  }

  /** The dashboard shows exactly the papers passing both filters, in their
      order; with both filters empty it shows every paper. */
  lemma DashboardPapersSpec(papers: seq<Paper>, keyword: string, topic: string, x: Paper, i: nat, j: nat)
    ensures var r := DashboardPapers(papers, keyword, topic);
      (x in r <==> x in papers && MatchesText(x, keyword) && MatchesText(x, topic)) &&
      (i < j < |papers| && DashboardMatch(papers[i], keyword, topic) && DashboardMatch(papers[j], keyword, topic) ==>
        var a, b := |Filter(papers[..i], DashboardFilter(keyword, topic))|, |Filter(papers[..j], DashboardFilter(keyword, topic))|;
        a < b < |r| && r[a] == papers[i] && r[b] == papers[j]) &&
      DashboardPapers(papers, "", "") == papers
  {
    var p := DashboardFilter(keyword, topic);
    FilterMembership(papers, p, x);
    if i < j < |papers| && p(papers[i]) && p(papers[j]) {
      FilterPosition(papers, p, i);
      FilterPosition(papers, p, j);
      FilterCountMonotone(papers, p, i, j);
    }
    FilterKeepsAll(papers, DashboardFilter("", ""));
  }

  /** The three text matches nest: the dashboard's is the narrowest, the
      search page's the widest, and the dashboard differs from the papers
      page only in not reading the authors. */
  lemma MatchesNest(p: Paper, term: string)
    ensures MatchesText(p, term) ==> MatchesSearch(p, term)
    ensures MatchesSearch(p, term) ==> SearchPageMatch(p, term)
    ensures MatchesSearch(p, term) && !MatchesText(p, term) ==> SomeIncludes(p.authors, term)
    ensures SearchPageMatch(p, term) && !MatchesSearch(p, term) ==> Includes(p.journal, term)
  {
  }

  /** None of the text matches depends on the letter case of the term. */
  lemma MatchesIgnoreCase(p: Paper, term: string)
    ensures MatchesSearch(p, Lower(term)) == MatchesSearch(p, term)
    ensures SearchPageMatch(p, Lower(term)) == SearchPageMatch(p, term)
    ensures MatchesText(p, Lower(term)) == MatchesText(p, term)
  {
    LowerIdempotent(term);
  }

  /** The view state of the dashboard's filter panel. */
  datatype DashboardView = DashboardView(page: int, keyword: string, topic: string)

  /** `handlePageChange` of the dashboard: go to `page`, clear both filters. */
  function DashboardPageChange(v: DashboardView, page: int): DashboardView {
    v.(page := page, keyword := "", topic := "")
  }

  /** After a page change the dashboard shows the whole new page, in order. */
  lemma DashboardPageChangeShowsAll(papers: seq<Paper>, v: DashboardView, page: int)
    ensures var w := DashboardPageChange(v, page);
      w.page == page && DashboardPapers(papers, w.keyword, w.topic) == papers
  {
    FilterKeepsAll(papers, DashboardFilter("", ""));
  }
}
