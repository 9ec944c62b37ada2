/** The deterministic parts of the backend API (main.py): paging of the
    paper list, chunk combination, the keyword relevance search, the
    duration rule of the methodology extractor, and the mission planner's
    validation, feasibility score, risk list and recommendations. */
module MainApi {
  import opened Wrappers
  import opened Text
  import opened Numeric
  import opened Sorting

  // ---------------------------------------------------------------------
  // get_papers_data

  /** Python `a // b` (floor division) for any non-zero divisor. */
  function PyFloorDiv(a: int, b: int): (q: int)
    requires b != 0
    ensures b > 0 ==> q * b <= a < q * b + b
    ensures b < 0 ==> q * b + b < a <= q * b
  {
    if b > 0 || a % b == 0 then a / b else a / b - 1
  }

  /** A Python slice bound after negative indices count from the end and
      out-of-range ones are clamped. */
  function SliceBound(i: int, n: nat): (k: nat)
    ensures k <= n
    ensures 0 <= i <= n ==> k == i
  {
    if i < 0 then (if i + n < 0 then 0 else i + n) else if i > n then n else i
  }

  /** `s[a:b]` for any integers `a` and `b`. */
  function PySlice<T>(s: seq<T>, a: int, b: int): (r: seq<T>)
    ensures 0 <= a <= b <= |s| ==> r == s[a..b]
    ensures b <= a && (0 <= b || a < 0 <= a + |s|) ==> r == []
  {
    var i, j := SliceBound(a, |s|), SliceBound(b, |s|);
    if i < j then s[i..j] else []
  }

  /** The payload of `/api/papers`: one page, or an error payload whose
      other fields are fixed (`papers` empty, `total` 0, `page` 1,
      `total_pages` 0). */
  datatype Page<T> =
    | Page(papers: seq<T>, total: nat, page: int, totalPages: int, limit: int, offset: int,
           hasNext: bool, hasPrevious: bool, role: string)
    | PageError(error: string, papers: seq<T>, total: nat, page: int, totalPages: int)

  const NoPapersMessage := "No papers data available"
  /** What the caught `ZeroDivisionError` of `limit == 0` becomes. */
  const ZeroLimitMessage := "Error fetching papers: integer division or modulo by zero"

  /** `get_papers_data(role, limit, offset)` over the loaded paper list. */
  function PapersData<T>(data: seq<T>, role: string, limit: int, offset: int): (r: Page<T>)
    ensures data == [] ==> r == PageError(NoPapersMessage, [], 0, 1, 0)
    ensures data != [] && limit == 0 ==> r == PageError(ZeroLimitMessage, [], 0, 1, 0)
    ensures data != [] && limit != 0 ==>
      r.Page? && r.total == |data| && r.limit == limit && r.offset == offset &&
      r.role == role && r.hasPrevious == (offset > 0) && |r.papers| <= |data|
  {
    if data == [] then PageError(NoPapersMessage, [], 0, 1, 0)
    else if limit == 0 then PageError(ZeroLimitMessage, [], 0, 1, 0)
    else
      var total := |data|;
      var endIdx := IntMin(offset + limit, total);
      Page(PySlice(data, offset, endIdx), total, PyFloorDiv(offset, limit) + 1,
           PyFloorDiv(total + limit - 1, limit), limit, offset, endIdx < total, offset > 0, role)
  }

  /** For a positive limit and a non-negative offset: the page count is the
      ceiling of total/limit, the page holds the offset, the slice is the
      records from the offset up to the limit, and there is a next page
      exactly when records remain after it. */
  lemma PapersDataPaging<T>(data: seq<T>, role: string, limit: int, offset: int)
    requires data != [] && limit > 0 && offset >= 0
    ensures var r := PapersData(data, role, limit, offset);
      r.Page? &&
      (r.totalPages - 1) * limit < |data| <= r.totalPages * limit &&
      (r.page - 1) * limit <= offset < r.page * limit &&
      r.papers == (if offset < |data| then data[offset..IntMin(offset + limit, |data|)] else []) &&
      (r.hasNext <==> offset + limit < |data|) &&
      (r.hasPrevious <==> offset > 0)
  {
  }

  lemma MulLess(a: int, b: int, c: int)
    requires c > 0 && a * c < b * c
    ensures a < b
  {
    if a >= b {
      MulLessEq(b, a, c);
    }
  }

  lemma MulLessEq(a: int, b: int, c: int)
    requires c > 0 && a <= b
    ensures a * c <= b * c
  {
    assert b * c - a * c == (b - a) * c;
  }

  /** Walking the pages by offset `(p - 1) * limit` numbers them 1, 2, ...
      and the last one reports no next page. */
  lemma PapersDataPageNumbers<T>(data: seq<T>, role: string, limit: int, p: int)
    requires data != [] && limit > 0 && p >= 1
    ensures var r := PapersData(data, role, limit, (p - 1) * limit);
      r.Page? && r.page == p && (r.hasNext <==> p < r.totalPages)
  {
    var o := (p - 1) * limit;
    MulLessEq(0, p - 1, limit);
    var r := PapersData(data, role, limit, o);
    PapersDataPaging(data, role, limit, o);
    PageArithmetic(|data|, limit, p, r.totalPages, r.page, o);
  }

  /** The arithmetic behind `PapersDataPageNumbers`, for `n` records. */
  lemma PageArithmetic(n: int, limit: int, p: int, t: int, page: int, o: int)
    requires limit > 0 && p >= 1 && o == (p - 1) * limit
    requires (t - 1) * limit < n <= t * limit
    requires (page - 1) * limit <= o < page * limit
    ensures page == p
    ensures o + limit < n <==> p < t
  {
    MulLess(p - 1, page, limit);
    MulLess(page - 1, p, limit);
    assert (p - 1) * limit + limit == p * limit;
    if p < t {
      MulLessEq(p, t - 1, limit);
    } else {
      MulLessEq(t, p, limit);
    }
  }

  // ---------------------------------------------------------------------
  // combine_chunks

  /** The text `combine_chunks` has built into `combined_text` once it has
      `acc` and still has `chunks` to go; `clean` is `clean_chunk_text`.
      Cleaned chunks shorter than 50 characters are skipped, a chunk is
      added with a trailing space while it fits in `maxLength`, and the
      first chunk that does not fit ends the accumulation. */
  function Accumulate(chunks: seq<string>, acc: string, maxLength: int, clean: string -> string): string
  {
    if chunks == [] then acc
    else
      var c := clean(chunks[0]);
      if |c| < 50 then Accumulate(chunks[1..], acc, maxLength, clean)
      else if |acc| + |c| + 1 <= maxLength then Accumulate(chunks[1..], acc + c + " ", maxLength, clean)
      else acc
  }

  /** The value of `combine_chunks(chunks, maxLength)`. */
  function Combined(chunks: seq<string>, maxLength: int, clean: string -> string): string {
    Strip(Accumulate(chunks, "", maxLength, clean))
  }

  /** Accumulation only appends, and never grows the text past
      `maxLength` (a text already longer is left as it is). */
  lemma {:induction false} AccumulateBounds(chunks: seq<string>, acc: string, maxLength: int, clean: string -> string)
    ensures var t := Accumulate(chunks, acc, maxLength, clean);
      |acc| <= |t| && t[..|acc|] == acc && |t| <= IntMax(|acc|, maxLength)
  {
    if chunks != [] {
      var c := clean(chunks[0]);
      if |c| < 50 {
        AccumulateBounds(chunks[1..], acc, maxLength, clean);
      } else if |acc| + |c| + 1 <= maxLength {
        var acc' := acc + c + " ";
        AccumulateBounds(chunks[1..], acc', maxLength, clean);
        var t := Accumulate(chunks[1..], acc', maxLength, clean);
        assert t[..|acc|] == t[..|acc'|][..|acc|];
      }
    }
  }

  /** The combined text is never longer than `maxLength`. */
  lemma CombinedBound(chunks: seq<string>, maxLength: int, clean: string -> string)
    ensures |Combined(chunks, maxLength, clean)| <= IntMax(0, maxLength)
  {
    AccumulateBounds(chunks, "", maxLength, clean);
  }

  /** Once a long enough chunk does not fit, nothing after it matters. */
  lemma AccumulateStops(c: string, rest: seq<string>, acc: string, maxLength: int, clean: string -> string)
    requires |clean(c)| >= 50 && |acc| + |clean(c)| + 1 > maxLength
    ensures Accumulate([c] + rest, acc, maxLength, clean) == acc
  {
    assert ([c] + rest)[0] == c;
  }

  /** A chunk whose cleaned text is shorter than 50 characters changes
      nothing wherever it appears. */
  lemma {:induction false} AccumulateSkipsShort(pre: seq<string>, c: string, post: seq<string>, acc: string,
                                                maxLength: int, clean: string -> string)
    requires |clean(c)| < 50
    ensures Accumulate(pre + [c] + post, acc, maxLength, clean) == Accumulate(pre + post, acc, maxLength, clean)
  {
    if pre == [] {
      assert pre + [c] + post == [c] + post;
      assert ([c] + post)[1..] == post;
      assert pre + post == post;
    } else {
      var x := clean(pre[0]);
      assert (pre + [c] + post)[0] == pre[0] && (pre + post)[0] == pre[0];
      assert (pre + [c] + post)[1..] == pre[1..] + [c] + post;
      assert (pre + post)[1..] == pre[1..] + post;
      if |x| < 50 {
        AccumulateSkipsShort(pre[1..], c, post, acc, maxLength, clean);
      } else if |acc| + |x| + 1 <= maxLength {
        AccumulateSkipsShort(pre[1..], c, post, acc + x + " ", maxLength, clean);
      }
    }
  }

  /** `combine_chunks`: the loop over the chunks with its `continue` and
      `break`. */
  method CombineChunks(chunks: seq<string>, maxLength: int, clean: string -> string) returns (text: string)
    ensures text == Combined(chunks, maxLength, clean)
  {
    var combined := "";
    var i := 0;
    while i < |chunks|
      invariant 0 <= i <= |chunks|
      invariant Accumulate(chunks[i..], combined, maxLength, clean) == Accumulate(chunks, "", maxLength, clean)
    {
      var cleaned := clean(chunks[i]);
      assert chunks[i..][0] == chunks[i] && chunks[i..][1..] == chunks[i + 1..];
      if |cleaned| < 50 {
        i := i + 1;
        continue;
      }
      if |combined| + |cleaned| + 1 <= maxLength {
        combined := combined + cleaned + " ";
      } else {
        break;
      }
      i := i + 1;
    }
    text := Strip(combined);
  }

  // ---------------------------------------------------------------------
  // find_relevant_papers

  /** An entry of the paper list, with `''` for a missing title or
      abstract (its `summary` here); its other fields are carried along unchanged and are not
      modelled. */
  datatype PaperEntry = PaperEntry(title: string, summary: string)

  /** What one query word earns: 3 for the title, 1 for the abstract. */
  function WordScore(w: string, title: string, summary: string): nat {
    (if Contains(title, w) then 3 else 0) + (if Contains(summary, w) then 1 else 0)
  }

  /** The relevance score of the lower-cased title and abstract for the
      query words, a repeated word counting each time. */
  function Relevance(words: seq<string>, title: string, summary: string): nat {
    if words == [] then 0
    else Relevance(words[..|words| - 1], title, summary) + WordScore(words[|words| - 1], title, summary)
  }

  /** A paper scores at all exactly when some query word occurs in its
      title or abstract, and never more than 4 per word. */
  lemma {:induction false} RelevanceSpec(words: seq<string>, title: string, summary: string)
    ensures Relevance(words, title, summary) > 0 <==>
      exists k :: 0 <= k < |words| && (Contains(title, words[k]) || Contains(summary, words[k]))
    ensures Relevance(words, title, summary) <= 4 * |words|
  {
    if words != [] {
      var init := words[..|words| - 1];
      RelevanceSpec(init, title, summary);
      if exists k :: 0 <= k < |init| && (Contains(title, init[k]) || Contains(summary, init[k])) {
        var k :| 0 <= k < |init| && (Contains(title, init[k]) || Contains(summary, init[k]));
        assert words[k] == init[k];
      }
      if exists k :: 0 <= k < |words| && (Contains(title, words[k]) || Contains(summary, words[k])) {
        var k :| 0 <= k < |words| && (Contains(title, words[k]) || Contains(summary, words[k]));
        if k < |init| {
          assert init[k] == words[k];
        }
      }
    }
  }

  /** The query words: the whitespace-separated words of the lower-cased query. */
  function QueryWords(query: string): seq<string> {
    Words(Lower(query))
  }

  function PaperRelevance(words: seq<string>, p: PaperEntry): nat {
    Relevance(words, Lower(p.title), Lower(p.summary))
  }

  /** The `(paper, score)` pairs the loop collects: the papers with a
      positive score, in list order. */
  function Scored(papers: seq<PaperEntry>, words: seq<string>): (r: seq<(PaperEntry, nat)>)
    ensures |r| <= |papers|
  {
    if papers == [] then []
    else
      var p := papers[|papers| - 1];
      var s := PaperRelevance(words, p);
      Scored(papers[..|papers| - 1], words) + (if s > 0 then [(p, s)] else [])
  }

  lemma {:induction false} ScoredSpec(papers: seq<PaperEntry>, words: seq<string>, x: (PaperEntry, nat))
    ensures x in Scored(papers, words) <==> x.0 in papers && x.1 == PaperRelevance(words, x.0) && x.1 > 0
  {
    if papers != [] {
      var init := papers[..|papers| - 1];
      ScoredSpec(init, words, x);
      assert papers == init + [papers[|papers| - 1]];
    }
  }

  predicate ScoreGe(a: (PaperEntry, nat), b: (PaperEntry, nat)) { a.1 >= b.1 }

  lemma ScoreGeTotal()
    ensures TotalPreorder(ScoreGe)
  {
  }

  function Firsts(s: seq<(PaperEntry, nat)>): (r: seq<PaperEntry>)
    ensures |r| == |s| && forall i :: 0 <= i < |s| ==> r[i] == s[i].0
  {
    seq(|s|, i requires 0 <= i < |s| => s[i].0)
  }

  /** The value of `find_relevant_papers(query, maxPapers)`: the scored
      papers stably sorted by score, highest first, cut to `maxPapers`
      (Python slicing, so a negative bound drops papers from the end). */
  function RelevantPapers(papers: seq<PaperEntry>, query: string, maxPapers: int): seq<PaperEntry> {
    Firsts(Head(SortBy(Scored(papers, QueryWords(query)), ScoreGe), maxPapers))
  }

  /** The sorted scored list is in score order and holds only papers of
      the list paired with their positive score. */
  lemma SortedScoredSpec(papers: seq<PaperEntry>, words: seq<string>)
    ensures var sorted := SortBy(Scored(papers, words), ScoreGe);
      SortedBy(sorted, ScoreGe) &&
      forall k :: 0 <= k < |sorted| ==>
        sorted[k].0 in papers && sorted[k].1 == PaperRelevance(words, sorted[k].0) && sorted[k].1 > 0
  {
    var scored := Scored(papers, words);
    var sorted := SortBy(scored, ScoreGe);
    ScoreGeTotal();
    SortBySorted(scored, ScoreGe);
    forall k | 0 <= k < |sorted|
      ensures sorted[k].0 in papers && sorted[k].1 == PaperRelevance(words, sorted[k].0) && sorted[k].1 > 0
    {
      assert sorted[k] in multiset(scored);
      ScoredSpec(papers, words, sorted[k]);
    }
  }

  /** Every returned paper is in the list and scores; scores never rise
      along the result; for `maxPapers >= 0` exactly `maxPapers` come back,
      or every scoring paper when there are fewer. */
  lemma RelevantPapersSpec(papers: seq<PaperEntry>, query: string, maxPapers: int)
    ensures var ws, r := QueryWords(query), RelevantPapers(papers, query, maxPapers);
      (forall k :: 0 <= k < |r| ==> r[k] in papers && PaperRelevance(ws, r[k]) > 0) &&
      (forall i, j :: 0 <= i < j < |r| ==> PaperRelevance(ws, r[i]) >= PaperRelevance(ws, r[j])) &&
      (maxPapers >= 0 ==> |r| == IntMin(maxPapers, |Filter(papers, (p: PaperEntry) => Scores(ws, p))|))
  {
    RelevantPapersMembers(papers, query, maxPapers);
    RelevantPapersOrdered(papers, query, maxPapers);
    var ws := QueryWords(query);
    ScoredInOrder(papers, ws);
  }

  /** A paper is a candidate when it scores on the query. */
  predicate Scores(words: seq<string>, p: PaperEntry) { PaperRelevance(words, p) > 0 }

  /** The scored pairs are the scoring papers in list order. */
  lemma {:induction false} ScoredInOrder(papers: seq<PaperEntry>, words: seq<string>)
    ensures Firsts(Scored(papers, words)) == Filter(papers, (p: PaperEntry) => Scores(words, p))
  {
    if papers != [] {
      var init, last := papers[..|papers| - 1], papers[|papers| - 1];
      ScoredInOrder(init, words);
      assert papers == init + [last];
      FilterSnoc(init, last, (p: PaperEntry) => Scores(words, p));
      var a, b := Scored(init, words), (if Scores(words, last) then [(last, PaperRelevance(words, last))] else []);
      assert Firsts(a + b) == Firsts(a) + Firsts(b);
    }
  }

  /** A scoring paper left out of the result scores no higher than any
      paper returned. */
  lemma RelevantPapersMaximal(papers: seq<PaperEntry>, query: string, maxPapers: int, x: PaperEntry)
    requires x in papers && PaperRelevance(QueryWords(query), x) > 0
    requires x !in RelevantPapers(papers, query, maxPapers)
    ensures var ws, r := QueryWords(query), RelevantPapers(papers, query, maxPapers);
      forall k :: 0 <= k < |r| ==> PaperRelevance(ws, r[k]) >= PaperRelevance(ws, x)
  {
    var ws := QueryWords(query);
    var scored := Scored(papers, ws);
    var sorted := SortBy(scored, ScoreGe);
    var h := Head(sorted, maxPapers);
    var r := RelevantPapers(papers, query, maxPapers);
    var px := (x, PaperRelevance(ws, x));
    ScoredSpec(papers, ws, px);
    SortedScoredSpec(papers, ws);
    assert px !in h by {
      assert forall k :: 0 <= k < |h| ==> r[k] == h[k].0;
    }
    PrefixMaximal(scored, sorted, h, ScoreGe, px);
    forall k | 0 <= k < |r| ensures PaperRelevance(ws, r[k]) >= PaperRelevance(ws, x) {
      HeadIndex(sorted, maxPapers, k);
      assert ScoreGe(h[k], px) && r[k] == h[k].0;
    }
  }

  /** Papers of equal score keep the order of the scored list, which is the
      list order of the papers. */
  lemma RelevantPapersStable(papers: seq<PaperEntry>, query: string, v: (PaperEntry, nat))
    ensures var scored := Scored(papers, QueryWords(query));
      TiesWith(SortBy(scored, ScoreGe), v, ScoreGe) == TiesWith(scored, v, ScoreGe)
  {
    ScoreGeTotal();
    SortByStable(Scored(papers, QueryWords(query)), v, ScoreGe);
  }

  lemma RelevantPapersMembers(papers: seq<PaperEntry>, query: string, maxPapers: int)
    ensures var ws, r := QueryWords(query), RelevantPapers(papers, query, maxPapers);
      forall k :: 0 <= k < |r| ==> r[k] in papers && PaperRelevance(ws, r[k]) > 0
  {
    var ws := QueryWords(query);
    var sorted := SortBy(Scored(papers, ws), ScoreGe);
    SortedScoredSpec(papers, ws);
    var h := Head(sorted, maxPapers);
    var r := Firsts(h);
    assert r == RelevantPapers(papers, query, maxPapers);
    forall k | 0 <= k < |r| ensures r[k] in papers && PaperRelevance(ws, r[k]) > 0 {
      HeadIndex(sorted, maxPapers, k);
      assert r[k] == h[k].0;
    }
  }

  lemma RelevantPapersOrdered(papers: seq<PaperEntry>, query: string, maxPapers: int)
    ensures var ws, r := QueryWords(query), RelevantPapers(papers, query, maxPapers);
      forall i, j :: 0 <= i < j < |r| ==> PaperRelevance(ws, r[i]) >= PaperRelevance(ws, r[j])
  {
    var ws := QueryWords(query);
    var sorted := SortBy(Scored(papers, ws), ScoreGe);
    SortedScoredSpec(papers, ws);
    var h := Head(sorted, maxPapers);
    var r := Firsts(h);
    assert r == RelevantPapers(papers, query, maxPapers);
    forall i, j | 0 <= i < j < |r| ensures PaperRelevance(ws, r[i]) >= PaperRelevance(ws, r[j]) {
      HeadIndex(sorted, maxPapers, i);
      HeadIndex(sorted, maxPapers, j);
      assert r[i] == h[i].0 && r[j] == h[j].0;
      assert ScoreGe(sorted[i], sorted[j]);
    }
  }

  /** With room for every paper, each paper that scores is returned. */
  lemma RelevantPapersComplete(papers: seq<PaperEntry>, query: string, maxPapers: int, p: PaperEntry)
    requires maxPapers >= |papers| && p in papers && PaperRelevance(QueryWords(query), p) > 0
    ensures p in RelevantPapers(papers, query, maxPapers)
  {
    var ws := QueryWords(query);
    var scored := Scored(papers, ws);
    var x := (p, PaperRelevance(ws, p));
    ScoredSpec(papers, ws, x);
    var sorted := SortBy(scored, ScoreGe);
    assert x in multiset(sorted);
    var k :| 0 <= k < |sorted| && sorted[k] == x;
    var r := RelevantPapers(papers, query, maxPapers);
    assert r[k] == p;
  }

  /** The score loop of `find_relevant_papers` for one paper. */
  method ScorePaper(words: seq<string>, title: string, summary: string) returns (score: nat)
    ensures score == Relevance(words, title, summary)
  {
    score := 0;
    for k := 0 to |words|
      invariant score == Relevance(words[..k], title, summary)
    {
      assert words[..k + 1][..k] == words[..k];
      if Contains(title, words[k]) {
        score := score + 3;
      }
      if Contains(summary, words[k]) {
        score := score + 1;
      }
    }
    assert words[..|words|] == words;
  }

  /** `find_relevant_papers`: the score loop over the query words inside
      the loop over the papers, then the stable sort and the cut. */
  method FindRelevantPapers(papers: seq<PaperEntry>, query: string, maxPapers: int) returns (r: seq<PaperEntry>)
    ensures r == RelevantPapers(papers, query, maxPapers)
  {
    var words := QueryWords(query);
    var relevant: seq<(PaperEntry, nat)> := [];
    for i := 0 to |papers|
      invariant relevant == Scored(papers[..i], words)
    {
      var paper := papers[i];
      var title, summary := Lower(paper.title), Lower(paper.summary);
      var score := ScorePaper(words, title, summary);
      assert papers[..i + 1][..i] == papers[..i];
      if score > 0 {
        relevant := relevant + [(paper, score)];
      }
    }
    assert papers[..|papers|] == papers;
    var sorted := SortBy(relevant, ScoreGe);
    r := Firsts(Head(sorted, maxPapers));
  }

  // ---------------------------------------------------------------------
  // extract_methodology_with_ai: duration

  /** The end of the run of digits starting at `i`. */
  function DigitEnd(t: string, i: nat): (e: nat)
    requires i <= |t|
    ensures i <= e <= |t|
    ensures forall k :: i <= k < e ==> IsDigit(t[k])
    ensures e == |t| || !IsDigit(t[e])
    decreases |t| - i
  {
    if i < |t| && IsDigit(t[i]) then DigitEnd(t, i + 1) else i
  }

  /** The end of the run of whitespace starting at `i`. */
  function SpaceEnd(t: string, i: nat): (e: nat)
    requires i <= |t|
    ensures i <= e <= |t|
    ensures forall k :: i <= k < e ==> IsSpace(t[k])
    ensures e == |t| || !IsSpace(t[e])
    decreases |t| - i
  {
    if i < |t| && IsSpace(t[i]) then SpaceEnd(t, i + 1) else i
  }

  /** `(\d+)\s*<unit>s?` matches at `i`. Giving back digits or spaces never
      helps, as the next character would then be a digit or a space and
      not the unit's first letter, so the match is the whole digit run,
      the whole space run after it, then the unit (the optional `s` does
      not affect whether it matches). */
  predicate MatchesAt(t: string, unit: string, i: nat) {
    i < |t| && IsDigit(t[i]) && OccursAt(t, unit, SpaceEnd(t, DigitEnd(t, i)))
  }

  /** The leftmost match position at or after `i` (`re.search`). */
  function SearchFrom(t: string, unit: string, i: nat): (r: Option<nat>)
    requires i <= |t|
    ensures r.Some? ==> (i <= r.value < |t| && MatchesAt(t, unit, r.value) &&
      forall k :: i <= k < r.value ==> !MatchesAt(t, unit, k))
    ensures r.None? ==> forall k :: i <= k < |t| ==> !MatchesAt(t, unit, k)
    decreases |t| - i
  {
    if i == |t| then None else if MatchesAt(t, unit, i) then Some(i) else SearchFrom(t, unit, i + 1)
  }

  /** `match.group(1)`: the digits of the leftmost match, if any. */
  function NumberBefore(t: string, unit: string): Option<string> {
    match SearchFrom(t, unit, 0)
    case None => None
    case Some(i) => Some(t[i..DigitEnd(t, i)])
  }

  /** The leftmost match starts a maximal run of digits, so `group(1)` is
      the whole number written before the unit. */
  lemma NumberBeforeSpec(t: string, unit: string)
    ensures var n := NumberBefore(t, unit);
      n.Some? ==> (n.value != [] && AllDigits(n.value) &&
        exists i :: 0 <= i < |t| && MatchesAt(t, unit, i) && (i == 0 || !IsDigit(t[i - 1])) &&
          n.value == t[i..DigitEnd(t, i)])
  {
    var r := SearchFrom(t, unit, 0);
    if r.Some? {
      MatchExtendsBack(t, unit, r.value);
    }
  }

  /** A match just after a digit extends back over that digit. */
  lemma MatchExtendsBack(t: string, unit: string, i: nat)
    requires i < |t|
    ensures i > 0 && IsDigit(t[i - 1]) && MatchesAt(t, unit, i) ==> MatchesAt(t, unit, i - 1)
  {
    if i > 0 && IsDigit(t[i - 1]) {
      assert DigitEnd(t, i - 1) == DigitEnd(t, i);
    }
  }

  const DurationUnits := ["day", "week", "month", "year"]
  const VariableDuration := "Variable duration"

  /** The number before the first of `units` that matches, trying them in
      order. */
  function FirstNumber(t: string, units: seq<string>): Option<string> {
    if units == [] then None
    else match NumberBefore(t, units[0])
      case Some(n) => Some(n)
      case None => FirstNumber(t, units[1..])
  }

  /** The duration the patterns for `units` give: the number of the first
      that matches followed by " days" whatever the unit, or "Variable
      duration". */
  function DurationFrom(t: string, units: seq<string>): string {
    match FirstNumber(t, units)
    case Some(n) => n + " days"
    case None => VariableDuration
  }

  /** No number exactly when no unit matches. */
  lemma {:induction false} FirstNumberNone(t: string, units: seq<string>)
    ensures FirstNumber(t, units).None? <==> forall u :: 0 <= u < |units| ==> NumberBefore(t, units[u]).None?
  {
    if units != [] && NumberBefore(t, units[0]).None? {
      FirstNumberNone(t, units[1..]);
      if forall u :: 0 <= u < |units[1..]| ==> NumberBefore(t, units[1..][u]).None? {
        forall u | 0 <= u < |units| ensures NumberBefore(t, units[u]).None? {
          if u > 0 { assert units[u] == units[1..][u - 1]; }
        }
      } else {
        var u :| 0 <= u < |units[1..]| && NumberBefore(t, units[1..][u]).Some?;
        assert units[u + 1] == units[1..][u];
      }
    }
  }

  /** Otherwise the number is that of the first unit that matches. */
  lemma {:induction false} FirstNumberSome(t: string, units: seq<string>)
    ensures var f := FirstNumber(t, units);
      f.Some? ==>
        exists u :: 0 <= u < |units| && NumberBefore(t, units[u]) == f &&
          forall v :: 0 <= v < u ==> NumberBefore(t, units[v]).None?
  {
    if units != [] && NumberBefore(t, units[0]).None? {
      FirstNumberSome(t, units[1..]);
      var f := FirstNumber(t, units);
      if f.Some? {
        var u :| 0 <= u < |units[1..]| && NumberBefore(t, units[1..][u]) == f &&
          forall v :: 0 <= v < u ==> NumberBefore(t, units[1..][v]).None?;
        assert units[u + 1] == units[1..][u];
        forall v | 0 <= v < u + 1 ensures NumberBefore(t, units[v]).None? {
          if v > 0 { assert units[v] == units[1..][v - 1]; }
        }
      }
    }
  }

  /** A number of days is never the variable-duration text. */
  lemma DaysNotVariable(n: string)
    ensures n + " days" != VariableDuration
  {
    var d := n + " days";
    assert d[|d| - 5..] == " days";
    assert VariableDuration[|VariableDuration| - 5..] == "ation";
  }

  /** Either no unit matches and the duration is variable, or the first
      unit that matches gives its number in days. */
  lemma DurationFromSpec(t: string, units: seq<string>)
    ensures var d := DurationFrom(t, units);
      (d == VariableDuration <==> forall u :: 0 <= u < |units| ==> NumberBefore(t, units[u]).None?) &&
      (d != VariableDuration ==>
        exists u :: 0 <= u < |units| && NumberBefore(t, units[u]).Some? &&
          (forall v :: 0 <= v < u ==> NumberBefore(t, units[v]).None?) &&
          d == NumberBefore(t, units[u]).value + " days")
  {
    FirstNumberNone(t, units);
    FirstNumberSome(t, units);
    var f := FirstNumber(t, units);
    if f.Some? {
      DaysNotVariable(f.value);
    }
  }

  /** The duration step of `extract_methodology_with_ai`: the `for` loop
      over the four patterns with its `break` and `else`. */
  method MethodologyDuration(paperText: string) returns (duration: string)
    ensures duration == DurationFrom(Lower(paperText), DurationUnits)
  {
    var textLower := Lower(paperText);
    var k := 0;
    while k < |DurationUnits|
      invariant 0 <= k <= |DurationUnits|
      invariant FirstNumber(textLower, DurationUnits[k..]) == FirstNumber(textLower, DurationUnits)
    {
      var m := NumberBefore(textLower, DurationUnits[k]);
      assert DurationUnits[k..][0] == DurationUnits[k] && DurationUnits[k..][1..] == DurationUnits[k + 1..];
      if m.Some? {
        return m.value + " days";
      }
      k := k + 1;
    }
    assert k == |DurationUnits|;
    assert DurationUnits[k..] == [];
    duration := VariableDuration;
  }

  // ---------------------------------------------------------------------
  // Mission planner

  /** The fields of `MissionPlannerRequest` the planner reads. */
  datatype Mission = Mission(destination: string, crewSize: int, durationDays: int)

  /** The parts of the real-time data dictionary the planner reads: each
      sub-dictionary when its key is present, each field when set, and
      whether other keys (a timestamp, say) make the dictionary non-empty. */
  datatype Crew = Crew(healthStatus: Option<string>)
  datatype Radiation = Radiation(currentLevel: Option<real>)
  datatype Research = Research(latestBoneLossStudy: Option<string>, psychologicalStressIndex: Option<string>,
                               muscleAtrophyRate: Option<string>)
  datatype Realtime = Realtime(issCrew: Option<Crew>, radiation: Option<Radiation>,
                               researchUpdates: Option<Research>, otherKeys: bool)

  /** The empty dictionary the non-real-time variants pass. */
  const NoRealtime := Realtime(None, None, None, false)

  /** `if realtime_data:` — a dictionary is truthy when it has a key. */
  predicate Truthy(rt: Realtime) {
    rt.issCrew.Some? || rt.radiation.Some? || rt.researchUpdates.Some? || rt.otherKeys
  }

  function HealthStatus(rt: Realtime): string {
    match rt.issCrew
    case None => "Unknown"
    case Some(c) => c.healthStatus.GetOr("Unknown")
  }

  function RadiationLevel(rt: Realtime): real {
    match rt.radiation
    case None => 1.0
    case Some(r) => r.currentLevel.GetOr(1.0)
  }

  function BoneLossStudy(rt: Realtime, default: string): string {
    match rt.researchUpdates
    case None => default
    case Some(r) => r.latestBoneLossStudy.GetOr(default)
  }

  const ValidDestinations := ["mars", "moon", "asteroid", "space station"]
  const CrewSizeMessage := "Crew size must be between 1 and 12"
  const DurationMessage := "Duration must be between 1 and 2000 days"
  const DestinationMessage := "Destination must be Mars, Moon, Asteroid, or Space Station"

  /** The checks of `/api/mission-planner` before the analysis: the
      request, or the detail of the 400 response of the first check that
      fails. */
  function ValidateMission(m: Mission): (r: Result<Mission>)
    ensures r.Ok? ==> r.value == m
  {
    if m.crewSize < 1 || m.crewSize > 12 then Err(CrewSizeMessage)
    else if m.durationDays < 1 || m.durationDays > 2000 then Err(DurationMessage)
    else if Lower(m.destination) !in ValidDestinations then Err(DestinationMessage)
    else Ok(m)
  }

  /** A request passes exactly when crew, duration and destination are all
      in range; otherwise the first failing check names the field. */
  lemma ValidateMissionSpec(m: Mission)
    ensures ValidateMission(m).Ok? <==>
      1 <= m.crewSize <= 12 && 1 <= m.durationDays <= 2000 && Lower(m.destination) in ValidDestinations
    ensures ValidateMission(m) == Err(CrewSizeMessage) <==> !(1 <= m.crewSize <= 12)
    ensures ValidateMission(m) == Err(DurationMessage) <==> 1 <= m.crewSize <= 12 && !(1 <= m.durationDays <= 2000)
  {
  }

  /** The destination is compared case-insensitively. */
  lemma ValidateMissionIgnoresCase(m: Mission, d: string)
    requires Lower(d) == Lower(m.destination)
    ensures ValidateMission(Mission(d, m.crewSize, m.durationDays)).Ok? == ValidateMission(m).Ok?
  {
  }

  /** `destination.lower() == "mars"` (and `"moon"`). */
  predicate IsMars(destination: string) { Lower(destination) == "mars" }
  predicate IsMoon(destination: string) { Lower(destination) == "moon" }

  function DurationPenalty(days: int): nat { if days > 500 then 20 else if days > 300 then 10 else 0 }
  function CrewPenalty(crew: int): nat { if crew > 6 then 15 else if crew > 4 then 5 else 0 }
  function DestinationPenalty(destination: string): nat {
    if IsMars(destination) then 25 else if IsMoon(destination) then 10 else 0
  }

  function HealthBonus(rt: Realtime): int {
    var health := HealthStatus(rt);
    if health == "Good" then 5 else if health == "Poor" then -10 else 0
  }

  function RadiationBonus(rt: Realtime): int {
    var level := RadiationLevel(rt);
    if level < 0.5 then 5 else if level > 1.5 then -10 else 0
  }

  function StudyBonus(rt: Realtime): int {
    var study := BoneLossStudy(rt, "");
    if Contains(study, "1.2%") then 3 else if Contains(study, "2.0%") then -5 else 0
  }

  /** What the real-time data adds: crew health, radiation level and the
      latest bone-loss study, each worth a bonus or a penalty. */
  function RealtimeAdjustment(rt: Realtime): int {
    if !Truthy(rt) then 0 else HealthBonus(rt) + RadiationBonus(rt) + StudyBonus(rt)
  }

  /** The value of `calculate_feasibility_score_with_realtime`. */
  function FeasibilityScore(m: Mission, rt: Realtime): int {
    IntMax(100 - DurationPenalty(m.durationDays) - CrewPenalty(m.crewSize) - DestinationPenalty(m.destination)
           + RealtimeAdjustment(rt), 0)
  }

  /** The score is never negative and at most 113; without real-time data
      it is 100 less the three penalties, so between 40 and 100. */
  lemma FeasibilityBounds(m: Mission, rt: Realtime)
    ensures 0 <= FeasibilityScore(m, rt) <= 113
    ensures !Truthy(rt) ==>
      FeasibilityScore(m, rt) == 100 - DurationPenalty(m.durationDays) - CrewPenalty(m.crewSize)
        - DestinationPenalty(m.destination) &&
      40 <= FeasibilityScore(m, rt) <= 100
  {
  }

  /** Real-time bonuses can take the score above 100: a short mission of a
      small crew to an asteroid, with a healthy ISS crew, low radiation and
      a 1.2% bone-loss study, scores 113. */
  lemma FeasibilityAboveHundred()
    ensures FeasibilityScore(Mission("asteroid", 3, 100),
      Realtime(Some(Crew(Some("Good"))), Some(Radiation(Some(0.2))),
               Some(Research(Some("1.2% per month"), None, None)), false)) == 113
  {
    var rt := Realtime(Some(Crew(Some("Good"))), Some(Radiation(Some(0.2))),
                       Some(Research(Some("1.2% per month"), None, None)), false);
    StudyBonusSample();
    AsteroidPenalty();
    assert HealthBonus(rt) == 5 && RadiationBonus(rt) == 5;
  }

  lemma StudyBonusSample()
    ensures StudyBonus(Realtime(None, None, Some(Research(Some("1.2% per month"), None, None)), false)) == 3
  {
    var study := "1.2% per month";
    assert OccursAt(study, "1.2%", 0);
    ContainsIff(study, "1.2%");
  }

  lemma AsteroidPenalty()
    ensures DestinationPenalty("asteroid") == 0
  {
    assert |Lower("asteroid")| == 8;
  }

  /** `calculate_feasibility_score_with_realtime`: the sequential updates
      of `score`. */
  method CalculateFeasibilityScore(m: Mission, rt: Realtime) returns (score: int)
    ensures score == FeasibilityScore(m, rt)
  {
    score := 100;
    if m.durationDays > 500 {
      score := score - 20;
    } else if m.durationDays > 300 {
      score := score - 10;
    }
    if m.crewSize > 6 {
      score := score - 15;
    } else if m.crewSize > 4 {
      score := score - 5;
    }
    if IsMars(m.destination) {
      score := score - 25;
    } else if IsMoon(m.destination) {
      score := score - 10;
    }
    assert score == 100 - DurationPenalty(m.durationDays) - CrewPenalty(m.crewSize) - DestinationPenalty(m.destination);
    if Truthy(rt) {
      score := AddRealtimeBonuses(score, rt);
    }
    score := IntMax(score, 0);
  }

  /** The real-time part of `calculate_feasibility_score_with_realtime`. */
  method AddRealtimeBonuses(start: int, rt: Realtime) returns (score: int)
    ensures score == start + HealthBonus(rt) + RadiationBonus(rt) + StudyBonus(rt)
  {
    score := start;
    var health := HealthStatus(rt);
    if health == "Good" {
      score := score + 5;
    } else if health == "Poor" {
      score := score - 10;
    }
    assert score == start + HealthBonus(rt);
    var level := RadiationLevel(rt);
    if level < 0.5 {
      score := score + 5;
    } else if level > 1.5 {
      score := score - 10;
    }
    assert score == start + HealthBonus(rt) + RadiationBonus(rt);
    var study := BoneLossStudy(rt, "");
    if Contains(study, "1.2%") {
      score := score + 3;
    } else if Contains(study, "2.0%") {
      score := score - 5;
    }
  }

  /** A `RiskAssessment`; unset fields are `""`. */
  datatype Risk = Risk(risk: string, severity: string, expectedLoss: string, dose: string, notes: string)

  function LongerThan180(m: Mission): string { if m.durationDays > 180 then "High" else "Medium" }

  /** The monthly bone-loss rate as Python prints the float. */
  function BoneLossRate(m: Mission, rt: Realtime): string {
    var byDuration := if m.durationDays > 180 then "1.5" else "1.0";
    if rt.researchUpdates.None? then byDuration
    else
      var study := BoneLossStudy(rt, "1.5% per month");
      if Contains(study, "1.2%") then "1.2" else if Contains(study, "1.5%") then "1.5" else byDuration
  }

  /** The dose text: a rounded yearly dose from the current level (half as
      much again for Mars) when radiation data is present, else a fixed one. */
  function RadiationDose(m: Mission, rt: Realtime): string {
    var mars := IsMars(m.destination);
    if rt.radiation.None? then (if mars then "500 mSv/year" else "200 mSv/year")
    else
      var yearly := RadiationLevel(rt) * 365.0 * (if mars then 1.5 else 1.0);
      FormatFixed0(yearly) + " mSv/year (based on current levels)"
  }

  /** Python's `f"{y:.0f}"`: the half-to-even rounded value, signed exactly
      when y is negative, so a value in (-0.5, 0) prints as "-0". */
  function FormatFixed0(y: real): (s: string)
    ensures |s| > 0 && (s[0] == '-' <==> y < 0.0)
    ensures var n := RoundHalfEven(y);
      var digits := if y < 0.0 then s[1..] else s;
      digits != [] && AllDigits(digits) && DigitsValue(digits) == if n < 0 then -n else n
  {
    var n := RoundHalfEven(y);
    assert (y < 0.0 ==> n <= 0) && (y >= 0.0 ==> n >= 0) by {
      RoundHalfEvenOfInt(0);
      if y < 0.0 { RoundHalfEvenMonotone(y, 0.0); } else { RoundHalfEvenMonotone(0.0, y); }
    }
    if y < 0.0 && n == 0 then
      assert DigitsValue("0") == 0 by { assert "0"[..0] == []; }
      "-0"
    else IntToString(n)
  }

  function StressSeverity(m: Mission, rt: Realtime): (string, string) {
    match rt.researchUpdates
    case None =>
      if m.durationDays > 300 then ("High", "Long isolation risk") else ("Medium", "Moderate isolation risk")
    case Some(r) =>
      var index := r.psychologicalStressIndex.GetOr("Moderate");
      if index == "High" then ("High", "High stress levels detected in current crew")
      else if index == "Low" then ("Low", "Low stress levels in current crew")
      else ("Medium", "Moderate stress levels")
  }

  function MuscleLossRate(rt: Realtime): string {
    match rt.researchUpdates
    case None => "2.0"
    case Some(r) => if Contains(r.muscleAtrophyRate.GetOr("2% per month"), "1.8%") then "1.8" else "2.0"
  }

  function BoneLossRisk(m: Mission, rt: Realtime): (r: Risk)
    ensures r.risk == "Bone loss" && r.severity == LongerThan180(m)
    ensures rt.researchUpdates.None? ==>
      r.expectedLoss == if m.durationDays > 180 then "1.5% per month" else "1.0% per month"
  {
    Risk("Bone loss", LongerThan180(m), BoneLossRate(m, rt) + "% per month", "", "")
  }

  function RadiationRisk(m: Mission, rt: Realtime): (r: Risk)
    ensures r.risk == "Radiation exposure"
    ensures r.severity == if IsMars(m.destination) then "High" else "Medium"
    ensures rt.radiation.None? ==> r.dose == if IsMars(m.destination) then "500 mSv/year" else "200 mSv/year"
  {
    Risk("Radiation exposure", if IsMars(m.destination) then "High" else "Medium", "", RadiationDose(m, rt), "")
  }

  function StressRisk(m: Mission, rt: Realtime): (r: Risk)
    ensures r.risk == "Psychological stress"
    ensures rt.researchUpdates.None? ==> r.severity == if m.durationDays > 300 then "High" else "Medium"
  {
    var stress := StressSeverity(m, rt);
    Risk("Psychological stress", stress.0, "", "", stress.1)
  }

  function MuscleRisk(m: Mission, rt: Realtime): (r: Risk)
    ensures r.risk == "Muscle atrophy" && r.severity == LongerThan180(m)
    ensures rt.researchUpdates.None? ==> r.expectedLoss == "2.0% per month"
  {
    Risk("Muscle atrophy", LongerThan180(m), MuscleLossRate(rt) + "% per month", "", "")
  }

  /** The value of `generate_risk_assessment_with_realtime`: always the
      same four risks in the same order. */
  function RiskList(m: Mission, rt: Realtime): (r: seq<Risk>)
    ensures |r| == 4
    ensures r[0].risk == "Bone loss" && r[1].risk == "Radiation exposure" &&
            r[2].risk == "Psychological stress" && r[3].risk == "Muscle atrophy"
  {
    [BoneLossRisk(m, rt), RadiationRisk(m, rt), StressRisk(m, rt), MuscleRisk(m, rt)]
  }

  /** With radiation data the dose is the rounded yearly dose in digits. */
  lemma RadiationDoseDigits(m: Mission, rt: Realtime)
    requires rt.radiation.Some? && RadiationLevel(rt) >= 0.0
    ensures var d := RadiationDose(m, rt);
      var n := RoundHalfEven(RadiationLevel(rt) * 365.0 * (if IsMars(m.destination) then 1.5 else 1.0));
      n >= 0 && d == NatToString(n) + " mSv/year (based on current levels)"
  {
    var y := RadiationLevel(rt) * 365.0 * (if IsMars(m.destination) then 1.5 else 1.0);
    RoundHalfEvenMonotone(0.0, y);
    RoundHalfEvenOfInt(0);
  }

  /** `generate_risk_assessment_with_realtime`: the four appends. */
  method GenerateRiskAssessment(m: Mission, rt: Realtime) returns (risks: seq<Risk>)
    ensures risks == RiskList(m, rt)
  {
    risks := [];
    var boneLossRate := BoneLossRate(m, rt);
    risks := risks + [Risk("Bone loss", LongerThan180(m), boneLossRate + "% per month", "", "")];
    var dose := RadiationDose(m, rt);
    risks := risks + [Risk("Radiation exposure", if IsMars(m.destination) then "High" else "Medium", "", dose, "")];
    var stress := StressSeverity(m, rt);
    risks := risks + [Risk("Psychological stress", stress.0, "", "", stress.1)];
    var muscleRate := MuscleLossRate(rt);
    risks := risks + [Risk("Muscle atrophy", LongerThan180(m), muscleRate + "% per month", "", "")];
    assert risks == [BoneLossRisk(m, rt), RadiationRisk(m, rt), StressRisk(m, rt), MuscleRisk(m, rt)];
  }

  /** The items `generate_recommendations_with_realtime` can produce; the
      text of each is `AdviceText`. */
  datatype Advice =
    | Hydroponics | PsychologicalSystems | CrewRotation
    | RadiationShielding | DustStormProtection | CommunicationDelays
    | LunarDust | TemperatureVariations
    | ConflictResolution | PrivacyModules
    | EnhancedMonitoring | MaintainProtocols
    | IncreaseShielding | ReduceShielding
    | EnhancedExercise | AdditionalCountermeasures
    | WeeklySupport | Evacuation | HealthMonitoring

  function AdviceText(a: Advice): string {
    match a
    case Hydroponics => "Include hydroponics for long-duration food supply"
    case PsychologicalSystems => "Add advanced psychological support systems"
    case CrewRotation => "Implement crew rotation schedule"
    case RadiationShielding => "Add radiation shielding (+20% payload)"
    case DustStormProtection => "Include dust storm protection systems"
    case CommunicationDelays => "Plan for communication delays"
    case LunarDust => "Include lunar dust mitigation systems"
    case TemperatureVariations => "Plan for extreme temperature variations"
    case ConflictResolution => "Implement crew conflict resolution protocols"
    case PrivacyModules => "Add privacy modules for crew quarters"
    case EnhancedMonitoring => "Implement enhanced medical monitoring based on current crew health issues"
    case MaintainProtocols => "Maintain current health protocols - crew performing well"
    case IncreaseShielding => "Increase radiation shielding due to elevated current levels"
    case ReduceShielding => "Current low radiation levels allow for reduced shielding"
    case EnhancedExercise => "Latest research shows improved bone loss rates - consider enhanced exercise protocols"
    case AdditionalCountermeasures => "Recent studies show higher bone loss - implement additional countermeasures"
    case WeeklySupport => "Schedule psychological support sessions weekly"
    case Evacuation => "Include emergency evacuation procedures"
    case HealthMonitoring => "Implement comprehensive health monitoring"
  }

  /** The texts of a list of items, in order. */
  function AdviceTexts(s: seq<Advice>): (r: seq<string>)
    ensures |r| == |s|
    ensures forall i :: 0 <= i < |s| ==> r[i] == AdviceText(s[i])
  {
    if s == [] then [] else [AdviceText(s[0])] + AdviceTexts(s[1..])
  }

  const GeneralRecommendations := [WeeklySupport, Evacuation, HealthMonitoring]

  function DurationRecommendations(m: Mission): (r: seq<Advice>)
    ensures |r| == if m.durationDays > 500 then 3 else 0
    ensures RankIncreasing(r) && RanksWithin(r, 0, 3)
  {
    if m.durationDays > 500 then [Hydroponics, PsychologicalSystems, CrewRotation] else []
  }

  function DestinationRecommendations(m: Mission): (r: seq<Advice>)
    ensures |r| == if IsMars(m.destination) then 3 else if IsMoon(m.destination) then 2 else 0
    ensures RankIncreasing(r) && RanksWithin(r, 3, 8)
  {
    if IsMars(m.destination) then [RadiationShielding, DustStormProtection, CommunicationDelays]
    else if IsMoon(m.destination) then [LunarDust, TemperatureVariations]
    else []
  }

  function CrewRecommendations(m: Mission): (r: seq<Advice>)
    ensures |r| == if m.crewSize > 4 then 2 else 0
    ensures RankIncreasing(r) && RanksWithin(r, 8, 10)
  {
    if m.crewSize > 4 then [ConflictResolution, PrivacyModules] else []
  }

  /** The latest bone-loss study mentions `1.2%` (better than expected)
      or `2.0%` (worse than expected). */
  predicate BetterBoneLoss(rt: Realtime) { Contains(BoneLossStudy(rt, ""), "1.2%") }
  predicate WorseBoneLoss(rt: Realtime) { Contains(BoneLossStudy(rt, ""), "2.0%") }

  function HealthRecommendation(rt: Realtime): (r: seq<Advice>)
    ensures |r| <= 1
    ensures r != [] <==> rt.issCrew.Some? && HealthStatus(rt) in {"Poor", "Good"}
    ensures RankIncreasing(r) && RanksWithin(r, 10, 12)
  {
    if rt.issCrew.None? then []
    else if HealthStatus(rt) == "Poor" then [EnhancedMonitoring]
    else if HealthStatus(rt) == "Good" then [MaintainProtocols]
    else []
  }

  function RadiationRecommendation(rt: Realtime): (r: seq<Advice>)
    ensures |r| <= 1
    ensures r != [] <==> rt.radiation.Some? && (RadiationLevel(rt) > 1.5 || RadiationLevel(rt) < 0.5)
    ensures RankIncreasing(r) && RanksWithin(r, 12, 14)
  {
    if rt.radiation.None? then []
    else if RadiationLevel(rt) > 1.5 then [IncreaseShielding]
    else if RadiationLevel(rt) < 0.5 then [ReduceShielding]
    else []
  }

  function ResearchRecommendation(rt: Realtime): (r: seq<Advice>)
    ensures |r| <= 1
    ensures r != [] <==> rt.researchUpdates.Some? && (BetterBoneLoss(rt) || WorseBoneLoss(rt))
    ensures RankIncreasing(r) && RanksWithin(r, 14, 16)
  {
    if rt.researchUpdates.None? then []
    else if BetterBoneLoss(rt) then [EnhancedExercise]
    else if WorseBoneLoss(rt) then [AdditionalCountermeasures]
    else []
  }

  /** The recommendations drawn from the real-time data, at most one each
      for crew health, radiation and bone-loss research. */
  function RealtimeRecommendations(rt: Realtime): (r: seq<Advice>)
    ensures |r| <= 3
    ensures !Truthy(rt) ==> r == []
  {
    if !Truthy(rt) then []
    else HealthRecommendation(rt) + RadiationRecommendation(rt) + ResearchRecommendation(rt)
  }

  /** The value of `generate_recommendations_with_realtime`, item by item. */
  function Recommendations(m: Mission, rt: Realtime): seq<Advice> {
    DurationRecommendations(m) + DestinationRecommendations(m) + CrewRecommendations(m)
      + RealtimeRecommendations(rt) + GeneralRecommendations
  }

  /** The list always ends with the three general items, and its length
      is fixed by the duration, destination and crew size up to the (at
      most three) real-time items. */
  lemma RecommendationsShape(m: Mission, rt: Realtime)
    ensures var r := Recommendations(m, rt);
      var fixed := 3 + (if m.durationDays > 500 then 3 else 0) + (if m.crewSize > 4 then 2 else 0) +
        (if IsMars(m.destination) then 3 else if IsMoon(m.destination) then 2 else 0);
      |r| >= 3 && r[|r| - 3..] == GeneralRecommendations &&
      fixed <= |r| <= fixed + 3 && (!Truthy(rt) ==> |r| == fixed)
  {
    var r := Recommendations(m, rt);
    var pre := DurationRecommendations(m) + DestinationRecommendations(m) + CrewRecommendations(m)
      + RealtimeRecommendations(rt);
    assert r == pre + GeneralRecommendations;
    assert r[|pre|..] == GeneralRecommendations;
  }

  /** The position of an item in the order the blocks are written. */
  function Rank(a: Advice): (n: nat)
    ensures n < 19
  {
    match a
    case Hydroponics => 0
    case PsychologicalSystems => 1
    case CrewRotation => 2
    case RadiationShielding => 3
    case DustStormProtection => 4
    case CommunicationDelays => 5
    case LunarDust => 6
    case TemperatureVariations => 7
    case ConflictResolution => 8
    case PrivacyModules => 9
    case EnhancedMonitoring => 10
    case MaintainProtocols => 11
    case IncreaseShielding => 12
    case ReduceShielding => 13
    case EnhancedExercise => 14
    case AdditionalCountermeasures => 15
    case WeeklySupport => 16
    case Evacuation => 17
    case HealthMonitoring => 18
  }

  predicate RankIncreasing(s: seq<Advice>) {
    forall i, j :: 0 <= i < j < |s| ==> Rank(s[i]) < Rank(s[j])
  }

  predicate RanksWithin(s: seq<Advice>, lo: nat, hi: nat) {
    forall i :: 0 <= i < |s| ==> lo <= Rank(s[i]) < hi
  }

  lemma IncreasingConcat(a: seq<Advice>, b: seq<Advice>, lo: nat, mid: nat, hi: nat)
    requires lo <= mid <= hi
    requires RankIncreasing(a) && RanksWithin(a, lo, mid)
    requires RankIncreasing(b) && RanksWithin(b, mid, hi)
    ensures RankIncreasing(a + b) && RanksWithin(a + b, lo, hi)
  {
    var c := a + b;
    forall i, j | 0 <= i < j < |c| ensures Rank(c[i]) < Rank(c[j]) {
      if j < |a| {
        assert c[i] == a[i] && c[j] == a[j];
      } else if i >= |a| {
        assert c[i] == b[i - |a|] && c[j] == b[j - |a|];
      } else {
        assert c[i] == a[i] && c[j] == b[j - |a|];
      }
    }
    forall i | 0 <= i < |c| ensures lo <= Rank(c[i]) < hi {
      if i < |a| {
        assert c[i] == a[i];
      } else {
        assert c[i] == b[i - |a|];
      }
    }
  }

  lemma RealtimeRanks(rt: Realtime)
    ensures RankIncreasing(RealtimeRecommendations(rt)) && RanksWithin(RealtimeRecommendations(rt), 10, 16)
  {
    if Truthy(rt) {
      var h, ra, re := HealthRecommendation(rt), RadiationRecommendation(rt), ResearchRecommendation(rt);
      IncreasingConcat(h, ra, 10, 12, 14);
      IncreasingConcat(h + ra, re, 10, 14, 16);
    }
  }

  lemma FixedRanks(m: Mission)
    ensures var r := DurationRecommendations(m) + DestinationRecommendations(m) + CrewRecommendations(m);
      RankIncreasing(r) && RanksWithin(r, 0, 10)
  {
    var d, de, c := DurationRecommendations(m), DestinationRecommendations(m), CrewRecommendations(m);
    IncreasingConcat(d, de, 0, 3, 8);
    IncreasingConcat(d + de, c, 0, 8, 10);
  }

  lemma GeneralRanks()
    ensures RankIncreasing(GeneralRecommendations) && RanksWithin(GeneralRecommendations, 16, 19)
  {
  }

  /** The items come in the order the blocks are written, so none appears
      twice. */
  lemma RecommendationsOrdered(m: Mission, rt: Realtime)
    ensures RankIncreasing(Recommendations(m, rt))
    ensures var r := Recommendations(m, rt); forall i, j :: 0 <= i < j < |r| ==> r[i] != r[j]
  {
    var fixed := DurationRecommendations(m) + DestinationRecommendations(m) + CrewRecommendations(m);
    FixedRanks(m);
    RealtimeRanks(rt);
    IncreasingConcat(fixed, RealtimeRecommendations(rt), 0, 10, 16);
    GeneralRanks();
    IncreasingConcat(fixed + RealtimeRecommendations(rt), GeneralRecommendations, 0, 16, 19);
  }

  /** The strings `generate_recommendations_with_realtime` returns. */
  function RecommendationTexts(m: Mission, rt: Realtime): (r: seq<string>)
    ensures |r| == |Recommendations(m, rt)|
    ensures forall i :: 0 <= i < |r| ==> r[i] == AdviceText(Recommendations(m, rt)[i])
  {
    AdviceTexts(Recommendations(m, rt))
  }

  method AppendHealthRecommendation(recs: seq<Advice>, rt: Realtime) returns (out: seq<Advice>)
    ensures out == recs + HealthRecommendation(rt)
  {
    out := recs;
    if rt.issCrew.Some? {
      var health := HealthStatus(rt);
      if health == "Poor" {
        out := out + [EnhancedMonitoring];
      } else if health == "Good" {
        out := out + [MaintainProtocols];
      }
    }
  }

  method AppendRadiationRecommendation(recs: seq<Advice>, rt: Realtime) returns (out: seq<Advice>)
    ensures out == recs + RadiationRecommendation(rt)
  {
    out := recs;
    if rt.radiation.Some? {
      var level := RadiationLevel(rt);
      if level > 1.5 {
        out := out + [IncreaseShielding];
      } else if level < 0.5 {
        out := out + [ReduceShielding];
      }
    }
  }

  method AppendResearchRecommendation(recs: seq<Advice>, rt: Realtime) returns (out: seq<Advice>)
    ensures out == recs + ResearchRecommendation(rt)
  {
    out := recs;
    if rt.researchUpdates.Some? {
      if BetterBoneLoss(rt) {
        out := out + [EnhancedExercise];
      } else if WorseBoneLoss(rt) {
        out := out + [AdditionalCountermeasures];
      }
    }
  }

  method AppendDurationRecommendations(recs: seq<Advice>, m: Mission) returns (out: seq<Advice>)
    ensures out == recs + DurationRecommendations(m)
  {
    out := recs;
    if m.durationDays > 500 {
      out := out + [Hydroponics];
      out := out + [PsychologicalSystems];
      out := out + [CrewRotation];
    }
  }

  method AppendDestinationRecommendations(recs: seq<Advice>, m: Mission) returns (out: seq<Advice>)
    ensures out == recs + DestinationRecommendations(m)
  {
    out := recs;
    if IsMars(m.destination) {
      out := out + [RadiationShielding];
      out := out + [DustStormProtection];
      out := out + [CommunicationDelays];
    } else if IsMoon(m.destination) {
      out := out + [LunarDust];
      out := out + [TemperatureVariations];
    }
  }

  method AppendCrewRecommendations(recs: seq<Advice>, m: Mission) returns (out: seq<Advice>)
    ensures out == recs + CrewRecommendations(m)
  {
    out := recs;
    if m.crewSize > 4 {
      out := out + [ConflictResolution];
      out := out + [PrivacyModules];
    }
  }

  /** The real-time block, taken only when the real-time data is truthy. */
  method AppendRealtimeRecommendations(recs: seq<Advice>, rt: Realtime) returns (out: seq<Advice>)
    ensures out == recs + RealtimeRecommendations(rt)
  {
    out := recs;
    if Truthy(rt) {
      out := AppendHealthRecommendation(out, rt);
      out := AppendRadiationRecommendation(out, rt);
      out := AppendResearchRecommendation(out, rt);
      var h, ra := HealthRecommendation(rt), RadiationRecommendation(rt);
      AppendAssoc(recs, h, ra);
      AppendAssoc(recs, h + ra, ResearchRecommendation(rt));
    }
  }

  /** `generate_recommendations_with_realtime`: the appends, block by block. */
  method GenerateRecommendations(m: Mission, rt: Realtime) returns (recs: seq<Advice>)
    ensures recs == Recommendations(m, rt)
  {
    recs := [];
    recs := AppendDurationRecommendations(recs, m);
    assert recs == DurationRecommendations(m);
    recs := AppendDestinationRecommendations(recs, m);
    recs := AppendCrewRecommendations(recs, m);
    recs := AppendRealtimeRecommendations(recs, rt);
    ghost var upTo := recs;
    recs := recs + [WeeklySupport];
    recs := recs + [Evacuation];
    recs := recs + [HealthMonitoring];
    assert recs == upTo + GeneralRecommendations;
  }
}
