/** The sample-data helpers of the scripts: loading the publication list,
    the by-year, by-keyword and by-id lookups, and the dataset statistics
    (year range, keyword counts and the ten most frequent keywords).  Each
    helper loads the list itself; here the list `loadPublications` returns
    is passed in. */
module LoadSample {
  import opened Wrappers
  import opened Text
  import opened Sorting
  import opened JsObject
  import JsNumber

  /** A publication of the sample file. */
  datatype Publication = Publication(id: string, title: string, abstractText: string, keywords: seq<string>, year: int)

  /** `loadPublications()`: the parsed file, or no publication at all when
      reading or parsing fails. */
  function LoadPublications(source: Result<seq<Publication>>): (pubs: seq<Publication>)
    ensures source.Err? ==> pubs == []
    ensures source.Ok? ==> pubs == source.value
  {
    match source
    case Ok(ps) => ps
    case Err(_) => []
  }

  // getPublicationsByYear

  function FromYear(minYear: int): Publication -> bool {
    (p: Publication) => p.year >= minYear
  }

  /** `getPublicationsByYear(minYear)`. */
  function ByYear(pubs: seq<Publication>, minYear: int): seq<Publication> {
    Filter(pubs, FromYear(minYear))
  }

  /** Exactly the publications from `minYear` on are kept. */
  lemma ByYearSpec(pubs: seq<Publication>, minYear: int, p: Publication)
    ensures p in ByYear(pubs, minYear) <==> p in pubs && p.year >= minYear
    ensures forall k :: 0 <= k < |ByYear(pubs, minYear)| ==> ByYear(pubs, minYear)[k].year >= minYear
  {
    FilterMembership(pubs, FromYear(minYear), p);
  }

  /** The kept publications stay in their order. */
  lemma ByYearOrder(pubs: seq<Publication>, minYear: int, i: nat, j: nat)
    requires i < j < |pubs| && pubs[i].year >= minYear && pubs[j].year >= minYear
    ensures exists a, b ::
      0 <= a < b < |ByYear(pubs, minYear)| && ByYear(pubs, minYear)[a] == pubs[i] && ByYear(pubs, minYear)[b] == pubs[j]
  {
    FilterOrder(pubs, FromYear(minYear), i, j);
    var r := Filter(pubs, FromYear(minYear));
    var a, b :| 0 <= a < b < |r| && r[a] == pubs[i] && r[b] == pubs[j];
    assert ByYear(pubs, minYear)[a] == pubs[i] && ByYear(pubs, minYear)[b] == pubs[j];
  }

  /** With the default `minYear` of 0, no publication of a year from 0 on
      is dropped. */
  lemma ByYearDefault(pubs: seq<Publication>)
    requires forall k :: 0 <= k < |pubs| ==> pubs[k].year >= 0
    ensures ByYear(pubs, 0) == pubs
  {
    FilterKeepsAll(pubs, FromYear(0));
  }

  // getPublicationsByKeyword

  /** `pub.keywords.some(k => k.toLowerCase().includes(lowerKeyword))`. */
  predicate SomeKeywordHas(keywords: seq<string>, w: string) {
    exists k :: 0 <= k < |keywords| && Contains(Lower(keywords[k]), w)
  }

  /** The title, the abstract or a keyword includes the lower-cased
      keyword, ignoring case. */
  function MatchesKeyword(w: string): Publication -> bool {
    (p: Publication) => Contains(Lower(p.title), w) || Contains(Lower(p.abstractText), w) || SomeKeywordHas(p.keywords, w)
  }

  /** `getPublicationsByKeyword(keyword)`. */
  function ByKeyword(pubs: seq<Publication>, keyword: string): seq<Publication> {
    Filter(pubs, MatchesKeyword(Lower(keyword)))
  }

  /** A publication is found exactly when the keyword occurs, ignoring
      case, in its title, its abstract or one of its keywords. */
  lemma ByKeywordSpec(pubs: seq<Publication>, keyword: string, p: Publication)
    ensures p in ByKeyword(pubs, keyword) <==> (p in pubs &&
      (Contains(Lower(p.title), Lower(keyword)) || Contains(Lower(p.abstractText), Lower(keyword)) ||
       exists k :: 0 <= k < |p.keywords| && Contains(Lower(p.keywords[k]), Lower(keyword))))
  {
    FilterMembership(pubs, MatchesKeyword(Lower(keyword)), p);
  }

  /** The found publications stay in their order. */
  lemma ByKeywordOrder(pubs: seq<Publication>, keyword: string, i: nat, j: nat)
    requires i < j < |pubs| && MatchesKeyword(Lower(keyword))(pubs[i]) && MatchesKeyword(Lower(keyword))(pubs[j])
    ensures exists a, b ::
      0 <= a < b < |ByKeyword(pubs, keyword)| && ByKeyword(pubs, keyword)[a] == pubs[i] && ByKeyword(pubs, keyword)[b] == pubs[j]
  {
    FilterOrder(pubs, MatchesKeyword(Lower(keyword)), i, j);
    var r := Filter(pubs, MatchesKeyword(Lower(keyword)));
    var a, b :| 0 <= a < b < |r| && r[a] == pubs[i] && r[b] == pubs[j];
    assert ByKeyword(pubs, keyword)[a] == pubs[i] && ByKeyword(pubs, keyword)[b] == pubs[j];
  }

  /** The search ignores the case of the keyword searched for. */
  lemma ByKeywordCaseInsensitive(pubs: seq<Publication>, keyword: string)
    ensures ByKeyword(pubs, Lower(keyword)) == ByKeyword(pubs, keyword)
  {
    LowerIdempotent(keyword);
  }

  /** The empty keyword finds every publication. */
  lemma ByEmptyKeyword(pubs: seq<Publication>)
    ensures ByKeyword(pubs, "") == pubs
  {
    forall k | 0 <= k < |pubs| ensures MatchesKeyword("")(pubs[k]) {
      ContainsTrivial(Lower(pubs[k].title));
    }
    FilterKeepsAll(pubs, MatchesKeyword(""));
  }

  // getPublicationById

  /** `publications.find(pub => pub.id === id) || null`. */
  function ById(pubs: seq<Publication>, id: string): Option<Publication> {
    if pubs == [] then None
    else if pubs[0].id == id then Some(pubs[0])
    else ById(pubs[1..], id)
  }

  /** The publication found is the first with the id; nothing is found
      exactly when no publication has it. */
  lemma {:induction false} ByIdSpec(pubs: seq<Publication>, id: string)
    ensures ById(pubs, id).None? <==> forall k :: 0 <= k < |pubs| ==> pubs[k].id != id
    ensures ById(pubs, id).Some? ==>
      exists k :: 0 <= k < |pubs| && pubs[k] == ById(pubs, id).value && pubs[k].id == id &&
        forall m :: 0 <= m < k ==> pubs[m].id != id
  {
    if pubs != [] && pubs[0].id != id {
      ByIdSpec(pubs[1..], id);
      if ById(pubs, id).Some? {
        var k :| 0 <= k < |pubs[1..]| && pubs[1..][k] == ById(pubs, id).value && pubs[1..][k].id == id &&
          forall m :: 0 <= m < k ==> pubs[1..][m].id != id;
        assert pubs[k + 1] == pubs[1..][k];
        assert forall m :: 1 <= m < k + 1 ==> pubs[m] == pubs[1..][m - 1];
      } else {
        assert forall k :: 1 <= k < |pubs| ==> pubs[k] == pubs[1..][k - 1];
      }
    }
  }

  // getPublicationsStats

  datatype YearRange = YearRange(min: JsNumber.Number, max: JsNumber.Number)

  /** `Math.min(acc, year)` on a JavaScript number and a year. */
  function MinYear(acc: JsNumber.Number, year: int): JsNumber.Number {
    match acc
    case Finite(v) => JsNumber.Finite(if year as real < v then year as real else v)
    case NaN => JsNumber.NaN
    case Infinity(negative) => if negative then acc else JsNumber.Finite(year as real)
  }

  /** `Math.max(acc, year)`. */
  function MaxYear(acc: JsNumber.Number, year: int): JsNumber.Number {
    match acc
    case Finite(v) => JsNumber.Finite(if year as real > v then year as real else v)
    case NaN => JsNumber.NaN
    case Infinity(negative) => if negative then JsNumber.Finite(year as real) else acc
  }

  /** The `reduce` from `{ min: Infinity, max: -Infinity }`. */
  function YearRangeOf(pubs: seq<Publication>): YearRange {
    if pubs == [] then YearRange(JsNumber.Infinity(false), JsNumber.Infinity(true))
    else
      var acc := YearRangeOf(pubs[..|pubs| - 1]);
      var y := pubs[|pubs| - 1].year;
      YearRange(MinYear(acc.min, y), MaxYear(acc.max, y))
  }

  /** Without publications the range is Infinity to -Infinity. */
  lemma YearRangeEmpty()
    ensures YearRangeOf([]) == YearRange(JsNumber.Infinity(false), JsNumber.Infinity(true))
  {
  }

  /** Otherwise it runs from the earliest year to the latest. */
  lemma {:induction false} YearRangeSpec(pubs: seq<Publication>)
    requires pubs != []
    ensures YearRangeOf(pubs).min.Finite? && YearRangeOf(pubs).max.Finite?
    ensures forall k :: 0 <= k < |pubs| ==>
      YearRangeOf(pubs).min.value <= pubs[k].year as real <= YearRangeOf(pubs).max.value
    ensures exists k :: 0 <= k < |pubs| && pubs[k].year as real == YearRangeOf(pubs).min.value
    ensures exists k :: 0 <= k < |pubs| && pubs[k].year as real == YearRangeOf(pubs).max.value
  {
    var init, y := pubs[..|pubs| - 1], pubs[|pubs| - 1].year;
    var r := YearRangeOf(pubs);
    if init == [] {
      assert YearRangeOf(init) == YearRange(JsNumber.Infinity(false), JsNumber.Infinity(true));
      assert r == YearRange(JsNumber.Finite(y as real), JsNumber.Finite(y as real));
      assert pubs[0].year == y;
    } else {
      YearRangeSpec(init);
      var ri := YearRangeOf(init);
      assert forall k :: 0 <= k < |init| ==> pubs[k] == init[k];
      YearWitness(pubs, init, ri.min.value, r.min.value);
      YearWitness(pubs, init, ri.max.value, r.max.value);
    }
  }

  lemma YearWitness(pubs: seq<Publication>, init: seq<Publication>, before: real, after: real)
    requires pubs != [] && init == pubs[..|pubs| - 1]
    requires exists k :: 0 <= k < |init| && init[k].year as real == before
    requires after == before || after == pubs[|pubs| - 1].year as real
    ensures exists k :: 0 <= k < |pubs| && pubs[k].year as real == after
  {
    if after != before {
      assert pubs[|pubs| - 1].year as real == after;
    } else {
      var k :| 0 <= k < |init| && init[k].year as real == before;
      assert pubs[k] == init[k];
    }
  }

  /** Every keyword occurrence, publication by publication. */
  function AllKeywords(pubs: seq<Publication>): seq<string> {
    if pubs == [] then [] else AllKeywords(pubs[..|pubs| - 1]) + pubs[|pubs| - 1].keywords
  }

  /** The sum of the counts of `keys` in `s`. */
  function TotalCount(keys: seq<string>, s: seq<string>): nat {
    if keys == [] then 0 else TotalCount(keys[..|keys| - 1], s) + Occurrences(s, keys[|keys| - 1])
  }

  /** One more occurrence adds one to the total exactly when it is one of
      the keys counted. */
  lemma {:induction false} TotalCountSnoc(keys: seq<string>, s: seq<string>, x: string)
    requires forall i, j :: 0 <= i < j < |keys| ==> keys[i] != keys[j]
    ensures TotalCount(keys, s + [x]) == TotalCount(keys, s) + (if x in keys then 1 else 0)
  {
    if keys != [] {
      var init, last := keys[..|keys| - 1], keys[|keys| - 1];
      TotalCountSnoc(init, s, x);
      OccurrencesSnoc(s, x, last);
      assert keys == init + [last];
      assert x in keys <==> x in init || x == last;
      assert last !in init;
    }
  }

  /** The counts of the distinct values sum to the number of values. */
  lemma {:induction false} TotalCountDistinct(s: seq<string>)
    ensures TotalCount(Distinct(s), s) == |s|
  {
    if s != [] {
      var init, x := s[..|s| - 1], s[|s| - 1];
      assert s == init + [x];
      TotalCountDistinct(init);
      var d := Distinct(init);
      TotalCountSnoc(d, init, x);
      if x !in d {
        assert Distinct(s) == d + [x];
        assert (d + [x])[..|d|] == d;
        OccurrencesSnoc(init, x, x);
      }
    }
  }

  /** `keywordCounts` after some keyword occurrences: the keys in insertion
      order, each with its count. */
  ghost predicate Counted(seen: seq<string>, keys: seq<string>, counts: map<string, nat>) {
    keys == Distinct(seen) &&
    (forall w :: w in counts <==> w in seen) &&
    forall w :: w in counts ==> counts[w] == Occurrences(seen, w)
  }

  /** `keywordCounts[keyword] = (keywordCounts[keyword] || 0) + 1`. */
  method CountKeyword(kw: string, keys: seq<string>, counts: map<string, nat>, ghost seen: seq<string>)
    returns (keys': seq<string>, counts': map<string, nat>)
    requires Counted(seen, keys, counts)
    ensures Counted(seen + [kw], keys', counts')
  {
    assert (seen + [kw])[..|seen|] == seen;
    forall w ensures Occurrences(seen + [kw], w) == Occurrences(seen, w) + (if kw == w then 1 else 0) {
      OccurrencesSnoc(seen, kw, w);
    }
    if kw in counts {
      keys', counts' := keys, counts[kw := counts[kw] + 1];
    } else {
      keys', counts' := keys + [kw], counts[kw := 1];
    }
  }

  /** The nested `forEach` loops counting every keyword occurrence. */
  method KeywordCounts(pubs: seq<Publication>) returns (keys: seq<string>, counts: map<string, nat>)
    ensures Counted(AllKeywords(pubs), keys, counts)
  {
    keys, counts := [], map[];
    ghost var seen: seq<string> := [];
    var i := 0;
    while i < |pubs|
      invariant 0 <= i <= |pubs| && seen == AllKeywords(pubs[..i])
      invariant Counted(seen, keys, counts)
    {
      var kws := pubs[i].keywords;
      var j := 0;
      ghost var cur := seen;
      while j < |kws|
        invariant 0 <= j <= |kws| && cur == seen + kws[..j]
        invariant Counted(cur, keys, counts)
      {
        keys, counts := CountKeyword(kws[j], keys, counts, cur);
        PrefixStep(kws, j);
        AppendAssoc(seen, kws[..j], [kws[j]]);
        cur := cur + [kws[j]];
        j := j + 1;
      }
      assert kws[..j] == kws;
      AllKeywordsStep(pubs, i);
      seen := cur;
      i := i + 1;
    }
    assert pubs[..|pubs|] == pubs;
  }

  lemma AllKeywordsStep(pubs: seq<Publication>, i: nat)
    requires i < |pubs|
    ensures AllKeywords(pubs[..i + 1]) == AllKeywords(pubs[..i]) + pubs[i].keywords
  {
    assert pubs[..i + 1][..i] == pubs[..i];
  }

  /** The counts sum to the number of keyword occurrences. */
  lemma CountsSum(pubs: seq<Publication>, keys: seq<string>, counts: map<string, nat>)
    requires Counted(AllKeywords(pubs), keys, counts)
    ensures TotalCount(keys, AllKeywords(pubs)) == |AllKeywords(pubs)|
  {
    TotalCountDistinct(AllKeywords(pubs));
  }

  datatype Stats = Stats(totalPublications: nat, yearRange: YearRange, topKeywords: seq<(string, nat)>)

  /** `Object.entries(keywordCounts)`: each key with its count, in the
      object's key order (keys in insertion order `keys`, index-like keys
      moved to the front). */
  function Entries(keys: seq<string>, counts: map<string, nat>): (es: seq<(string, nat)>)
    requires forall k :: 0 <= k < |keys| ==> keys[k] in counts
  {
    EntriesOrder(seq(|keys|, k requires 0 <= k < |keys| => (keys[k], counts[keys[k]])))
  }

  /** The keyword entries in `Object.entries` order. */
  function KeywordEntries(pubs: seq<Publication>): seq<(string, nat)> {
    EntriesOrder(CountsInOrder(AllKeywords(pubs)))
  }

  /** The entries sorted by count, highest first; the sort is stable. */
  function RankedKeywords(pubs: seq<Publication>): seq<(string, nat)> {
    SortBy(KeywordEntries(pubs), CountGe)
  }

  /** `getPublicationsStats()`. */
  function StatsOf(pubs: seq<Publication>): Stats {
    Stats(|pubs|, YearRangeOf(pubs), Take(RankedKeywords(pubs), 10))
  }

  /** The ranked entries: sorted by count, each keyword once with its
      number of occurrences, every keyword present. */
  lemma RankedKeywordsSpec(pubs: seq<Publication>)
    ensures var rk := RankedKeywords(pubs);
      var all := AllKeywords(pubs);
      SortedBy(rk, CountGe) &&
      (forall k :: 0 <= k < |rk| ==> rk[k].0 in all && rk[k].1 == Occurrences(all, rk[k].0)) &&
      (forall d :: d in all ==> exists k :: 0 <= k < |rk| && rk[k].0 == d) &&
      (forall i, j :: 0 <= i < j < |rk| ==> rk[i].0 != rk[j].0)
  {
    var all := AllKeywords(pubs);
    EntriesOrderSpec(CountsInOrder(all));
    assert TotalPreorder(CountGe);
    SortBySorted(KeywordEntries(pubs), CountGe);
    PermutedCountsSpec(all, RankedKeywords(pubs));
  }

  /** Keywords with equal counts keep the `Object.entries` order: index-like
      keywords ("2020") in ascending numeric order first, then the others in
      order of first occurrence. */
  lemma RankedKeywordsTies(pubs: seq<Publication>, v: (string, nat))
    ensures TiesWith(RankedKeywords(pubs), v, CountGe) == TiesWith(KeywordEntries(pubs), v, CountGe)
  {
    assert TotalPreorder(CountGe);
    SortByStable(KeywordEntries(pubs), v, CountGe);
  }

  /** Two different keywords are counted once each, in order of appearance. */
  lemma TwoKeywordCounts(u: string, v: string)
    requires u != v
    ensures CountsInOrder([u, v]) == [(u, 1), (v, 1)]
  {
    var ds := [u, v];
    assert Distinct(ds) == [u, v] by {
      assert ds[..1] == [u] && [u][..0] == [];
      assert Distinct([u]) == [u];
    }
    assert Occurrences(ds, u) == 1 && Occurrences(ds, v) == 1 by {
      assert ds[1..] == [v] && [v][1..] == [];
    }
  }

  /** The entries of a publication whose keywords are a word and then a
      year-like keyword. */
  lemma YearKeywordEntries(w: string, p: Publication)
    requires !IsIndexKey(w) && p.keywords == [w, "2020"]
    ensures KeywordEntries([p]) == [("2020", 1), (w, 1)]
  {
    assert AllKeywords([p]) == [w, "2020"] by {
      assert [p][..0] == [] && [p][0] == p;
      assert AllKeywords([p]) == AllKeywords([]) + p.keywords;
    }
    YearIsIndexKey();
    TwoKeywordCounts(w, "2020");
    IndexKeyFirst<nat>((w, 1), ("2020", 1));
  }

  /** A tie between a word seen first and a year-like keyword seen later
      lists the year-like keyword first. */
  lemma YearKeywordFirst(w: string, p: Publication)
    requires !IsIndexKey(w) && p.keywords == [w, "2020"]
    ensures RankedKeywords([p]) == [("2020", 1), (w, 1)]
  {
    var ke := KeywordEntries([p]);
    YearKeywordEntries(w, p);
    assert SortedBy(ke, CountGe);
    SortBySortedInput(ke, CountGe);
  }

  /** Without index-like keywords, ties keep the order of first occurrence. */
  lemma NamedKeywordsTies(pubs: seq<Publication>, v: (string, nat))
    requires forall k :: 0 <= k < |AllKeywords(pubs)| ==> !IsIndexKey(AllKeywords(pubs)[k])
    ensures TiesWith(RankedKeywords(pubs), v, CountGe) == TiesWith(CountsInOrder(AllKeywords(pubs)), v, CountGe)
  {
    var all := AllKeywords(pubs);
    var t := CountsInOrder(all);
    forall k | 0 <= k < |t| ensures !IsIndexKey(t[k].0) {
      assert Distinct(all)[k] in all;
    }
    EntriesOrderNamed(t);
    RankedKeywordsTies(pubs, v);
  }

  /** `getPublicationsStats()`: the year range, the keyword counts and the
      ten most frequent keywords. */
  method PublicationsStats(pubs: seq<Publication>) returns (stats: Stats)
    ensures stats == StatsOf(pubs)
  {
    var keys, counts := KeywordCounts(pubs);
    var entries := Entries(keys, counts);
    assert seq(|keys|, k requires 0 <= k < |keys| => (keys[k], counts[keys[k]])) == CountsInOrder(AllKeywords(pubs));
    stats := Stats(|pubs|, YearRangeOf(pubs), Take(SortBy(entries, CountGe), 10));
  }

  /** At most ten keywords are listed, most frequent first, each once and
      with its number of occurrences. */
  lemma TopKeywordsSpec(pubs: seq<Publication>)
    ensures var top := StatsOf(pubs).topKeywords;
      |top| <= 10 && SortedBy(top, CountGe) &&
      (forall k :: 0 <= k < |top| ==> top[k].0 in AllKeywords(pubs) && top[k].1 == Occurrences(AllKeywords(pubs), top[k].0)) &&
      (forall i, j :: 0 <= i < j < |top| ==> top[i].0 != top[j].0)
  {
    RankedKeywordsSpec(pubs);
    TakeSorted(RankedKeywords(pubs), 10, CountGe);
  }

  /** A keyword left out of the top list occurs no more often than any
      keyword listed, and with fewer than ten keywords none is left out. */
  lemma TopKeywordsMaximal(pubs: seq<Publication>, w: string)
    requires w in AllKeywords(pubs)
    requires forall k :: 0 <= k < |StatsOf(pubs).topKeywords| ==> StatsOf(pubs).topKeywords[k].0 != w
    ensures |StatsOf(pubs).topKeywords| == 10
    ensures forall k :: 0 <= k < 10 ==> StatsOf(pubs).topKeywords[k].1 >= Occurrences(AllKeywords(pubs), w)
  {
    var all := AllKeywords(pubs);
    var vc := RankedKeywords(pubs);
    var top := StatsOf(pubs).topKeywords;
    RankedKeywordsSpec(pubs);
    var i :| 0 <= i < |vc| && vc[i].0 == w;
    if i < 10 {
      assert false;
    }
    forall k | 0 <= k < 10 ensures top[k].1 >= Occurrences(all, w) {
      assert top[k] == vc[k];
      assert CountGe(vc[k], vc[i]);
    }
  }

  /** What `keywordCounts[keyword] || 0` holds on a plain `{}` object: a
      number, or text once an inherited value (a function, or the prototype)
      was concatenated with `+ 1`. */
  datatype Tally = Count(n: nat) | Text

  /** One step of the counting as written: an inherited name reads a truthy
      inherited value, `+ 1` then makes text; assigning text to `__proto__`
      creates no own key. */
  function BumpAsWritten(m: map<string, Tally>, kw: string): (m': map<string, Tally>)
    ensures forall w :: w != kw ==> (w in m' <==> w in m) && (w in m ==> m'[w] == m[w])
  {
    if kw in m then
      m[kw := match m[kw] case Count(n) => Count(n + 1) case Text => Text]
    else if kw == "__proto__" then m
    else if kw in InheritedNames then m[kw := Text]
    else m[kw := Count(1)]
  }

  /** The own properties of `keywordCounts` after counting `seen`. */
  function TallyAsWritten(seen: seq<string>): map<string, Tally> {
    if seen == [] then map[] else BumpAsWritten(TallyAsWritten(seen[..|seen| - 1]), seen[|seen| - 1])
  }

  /** For a keyword that is no inherited name the count as written is the
      number of its occurrences, and an inherited name other than
      `__proto__` holds text. */
  lemma {:induction false} TallyAsWrittenSpec(seen: seq<string>, w: string)
    ensures w !in InheritedNames ==> (w in TallyAsWritten(seen) <==> w in seen)
    ensures w !in InheritedNames && w in seen ==> TallyAsWritten(seen)[w] == Count(Occurrences(seen, w))
    ensures w in InheritedNames && w != "__proto__" ==> (w in TallyAsWritten(seen) <==> w in seen)
    ensures w in InheritedNames && w != "__proto__" && w in seen ==> TallyAsWritten(seen)[w] == Text
    ensures w == "__proto__" ==> w !in TallyAsWritten(seen)
  {
    if seen != [] {
      var init, last := seen[..|seen| - 1], seen[|seen| - 1];
      TallyAsWrittenSpec(init, w);
      assert seen == init + [last];
      OccurrencesSnoc(init, last, w);
    }
  }

  /** With no inherited name among the keywords the counting as written
      agrees with `Counted`. */
  lemma TallyAsWrittenAgrees(seen: seq<string>, keys: seq<string>, counts: map<string, nat>)
    requires forall k :: 0 <= k < |seen| ==> seen[k] !in InheritedNames
    requires Counted(seen, keys, counts)
    ensures forall w :: w in TallyAsWritten(seen) <==> w in counts
    ensures forall w :: w in counts ==> TallyAsWritten(seen)[w] == Count(counts[w])
  {
    forall w ensures w in TallyAsWritten(seen) <==> w in counts {
      TallyAsWrittenSpec(seen, w);
    }
    forall w | w in counts ensures TallyAsWritten(seen)[w] == Count(counts[w]) {
      TallyAsWrittenSpec(seen, w);
    }
  }

  /** The keyword "constructor" occurs once but is tallied as text, and the
      keyword "__proto__" is not tallied at all. */
  lemma InheritedKeywordTally()
    ensures Occurrences(["constructor"], "constructor") == 1
    ensures TallyAsWritten(["constructor"]) == map["constructor" := Text]
    ensures Occurrences(["__proto__"], "__proto__") == 1
    ensures TallyAsWritten(["__proto__"]) == map[]
  {
    assert ["constructor"][..0] == [] && ["__proto__"][..0] == [];
    assert "constructor" in InheritedNames && "__proto__" in InheritedNames;
  }
}
