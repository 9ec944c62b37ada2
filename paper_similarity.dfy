/** `PaperSimilarityService` (paper_similarity_service.py): groups chunked
    paper sections from JSONL into one document per paper, reports similar
    pairs of papers and clusters them by connected components of the
    thresholded similarity graph. */
module PaperSimilarity {
  import opened Wrappers
  import opened Text
  import opened Numeric
  import opened Sorting
  import opened SimGraph
  import opened PairRanking

  // ---------------------------------------------------------------------
  // Loading chunked papers

  /** The `paper_id` of a decoded object as a dictionary key: missing or
      `null`, a string, or a number (a boolean is the number 1 or 0, which
      it equals as a key); an array or an object is unhashable. */
  datatype PaperId = NoId | TextId(text: string) | NumberId(value: real) | Unhashable

  /** One line of the JSONL file: a decoded object whose `paper_id`,
      `section` and `chunk_text_clean` are given (a missing `section` or
      `chunk_text_clean` key is the empty string, `None` stands for a value
      that is not a string), a line that decodes to a value other than an
      object, or a line `json.loads` rejects. */
  datatype Line = Chunk(paperId: PaperId, section: Option<string>, text: Option<string>)
                | NonObject
                | Undecodable

  datatype Fields = Fields(title: string, summary: string, results: string, conclusion: string, methods: string)

  const EmptyFields := Fields("", "", "", "", "")

  /** The `projects` dictionary: its keys in insertion order and its values. */
  datatype Grouping = Grouping(order: seq<PaperId>, projects: map<PaperId, Fields>)

  /** The sections collected from a chunk, in the order of `fields`. */
  predicate IsField(sec: string) {
    sec == "abstract" || sec == "results" || sec == "conclusion" || sec == "methods" || sec == "title"
  }

  function FieldOf(f: Fields, sec: string): string {
    if sec == "abstract" then f.summary
    else if sec == "results" then f.results
    else if sec == "conclusion" then f.conclusion
    else if sec == "methods" then f.methods
    else if sec == "title" then f.title
    else ""
  }

  /** `projects[pid][section] += s` */
  function AppendTo(f: Fields, sec: string, s: string): (r: Fields)
    requires IsField(sec)
    ensures FieldOf(r, sec) == FieldOf(f, sec) + s
    ensures forall o :: IsField(o) && o != sec ==> FieldOf(r, o) == FieldOf(f, o)
  {
    if sec == "abstract" then f.(summary := f.summary + s)
    else if sec == "results" then f.(results := f.results + s)
    else if sec == "conclusion" then f.(conclusion := f.conclusion + s)
    else if sec == "methods" then f.(methods := f.methods + s)
    else f.(title := f.title + s)
  }

  /** A paper's fields after a chunk of lowered section `s` with text `txt`:
      `' ' + txt` is appended to a collected section, and a title chunk then
      overwrites the title. */
  function Updated(f: Fields, s: string, txt: Option<string>): (r: Fields)
    requires IsField(s) ==> txt.Some?
    ensures forall sec :: IsField(sec) && sec != "title" ==>
      FieldOf(r, sec) == FieldOf(f, sec) + (if sec == s then " " + txt.value else "")
    ensures r.title == if s == "title" then txt.value else f.title
  {
    var f1 := if IsField(s) then AppendTo(f, s, " " + txt.value) else f;
    if s == "title" then f1.(title := txt.value) else f1
  }

  /** The body of the loop for one line; `None` is an exception that
      abandons the whole load: `get` on a value that is not an object,
      `lower` on a non-string section, `in` with an unhashable paper id, or
      adding a non-string chunk text. */
  function Step(g: Grouping, line: Line): Option<Grouping> {
    match line
    case Undecodable => Some(g)
    case NonObject => None
    case Chunk(pid, sec, txt) =>
      if sec.None? || pid.Unhashable? then None
      else
        var s := Lower(sec.value);
        if IsField(s) && txt.None? then None
        else
          var g1 := if pid in g.projects then g else Grouping(g.order + [pid], g.projects[pid := EmptyFields]);
          Some(Grouping(g1.order, g1.projects[pid := Updated(g1.projects[pid], s, txt)]))
  }

  /** The grouping after the given lines, or `None` if a line raised. */
  function Group(lines: seq<Line>): Option<Grouping> {
    if lines == [] then Some(Grouping([], map[]))
    else
      match Group(lines[..|lines| - 1])
      case None => None
      case Some(g) => Step(g, lines[|lines| - 1])
  }

  lemma GroupFailed(lines: seq<Line>, i: nat)
    requires i <= |lines| && Group(lines[..i]).None?
    ensures Group(lines).None?
    decreases |lines| - i
  {
    if i < |lines| {
      assert lines[..i + 1][..i] == lines[..i];
      GroupFailed(lines, i + 1);
    } else {
      assert lines[..i] == lines;
    }
  }

  /** The reading loop of `_load_projects_jsonl`. */
  method GroupChunks(lines: seq<Line>) returns (r: Option<Grouping>)
    ensures r == Group(lines)
  {
    var g := Grouping([], map[]);
    var i := 0;
    while i < |lines|
      invariant 0 <= i <= |lines|
      invariant Group(lines[..i]) == Some(g)
    {
      assert lines[..i + 1][..i] == lines[..i];
      var next := Step(g, lines[i]);
      if next.None? {
        GroupFailed(lines, i + 1);
        return None;
      }
      g := next.value;
      i := i + 1;
    }
    assert i == |lines|;
    assert lines[..i] == lines;
    r := Some(g);
  }

  // Reference definitions of what ends up in each field

  /** A line that lowers to section `sec` of paper `pid`. */
  predicate SectionLine(line: Line, pid: PaperId, sec: string) {
    line.Chunk? && line.paperId == pid && line.section.Some? && Lower(line.section.value) == sec
  }

  /** The concatenation of `' ' + text` over the chunks of section `sec` of `pid`. */
  function Collected(lines: seq<Line>, pid: PaperId, sec: string): string {
    if lines == [] then ""
    else
      var last := lines[|lines| - 1];
      Collected(lines[..|lines| - 1], pid, sec)
        + (if SectionLine(last, pid, sec) && last.text.Some? then " " + last.text.value else "")
  }

  /** The text of the last title chunk of `pid`, or "" if there is none. */
  function LastTitle(lines: seq<Line>, pid: PaperId): string {
    if lines == [] then ""
    else
      var last := lines[|lines| - 1];
      if SectionLine(last, pid, "title") && last.text.Some? then last.text.value
      else LastTitle(lines[..|lines| - 1], pid)
  }

  /** `pid` is named by some chunk line with a string section. */
  predicate Mentioned(lines: seq<Line>, pid: PaperId) {
    exists i :: 0 <= i < |lines| && lines[i].Chunk? && lines[i].paperId == pid
  }

  /** A line that raises in the loop body. */
  predicate Raises(line: Line) {
    line.NonObject? ||
    (line.Chunk? && (line.section.None? || line.paperId.Unhashable? ||
                     (IsField(Lower(line.section.value)) && line.text.None?)))
  }

  ghost predicate GroupingOk(lines: seq<Line>, g: Grouping) {
    (forall i, j :: 0 <= i < j < |g.order| ==> g.order[i] != g.order[j]) &&
    (forall pid :: pid in g.projects <==> pid in g.order) &&
    (forall pid :: pid in g.projects <==> Mentioned(lines, pid)) &&
    (forall pid, sec :: pid in g.projects && IsField(sec) && sec != "title" ==>
       FieldOf(g.projects[pid], sec) == Collected(lines, pid, sec)) &&
    (forall pid :: pid in g.projects ==> g.projects[pid].title == LastTitle(lines, pid))
  }

  /** Loading fails exactly when some line raises; otherwise every paper
      mentioned appears once, in first-mention order, each non-title field
      is the concatenation of `' ' + text` over its chunks in file order,
      and the title is the text of the last title chunk. */
  lemma {:induction false} GroupSpec(lines: seq<Line>)
    ensures Group(lines).None? <==> exists i :: 0 <= i < |lines| && Raises(lines[i])
    ensures Group(lines).Some? ==> GroupingOk(lines, Group(lines).value)
  {
    if lines != [] {
      var init, last := lines[..|lines| - 1], lines[|lines| - 1];
      GroupSpec(init);
      assert forall i :: 0 <= i < |init| ==> init[i] == lines[i];
      if Group(init).Some? {
        var g := Group(init).value;
        if !Raises(last) {
          StepOk(init, last, g);
          assert init + [last] == lines;
        }
      } else {
        var i :| 0 <= i < |init| && Raises(init[i]);
        assert Raises(lines[i]);
      }
    }
  }

  lemma {:induction false} NotMentionedEmpty(lines: seq<Line>, pid: PaperId, sec: string)
    requires !Mentioned(lines, pid)
    ensures Collected(lines, pid, sec) == "" && LastTitle(lines, pid) == ""
  {
    if lines != [] {
      var init := lines[..|lines| - 1];
      assert forall i :: 0 <= i < |init| ==> init[i] == lines[i];
      assert lines[|lines| - 1].Chunk? ==> lines[|lines| - 1].paperId != pid;
      NotMentionedEmpty(init, pid, sec);
    }
  }

  lemma StepMentioned(init: seq<Line>, last: Line, pid: PaperId)
    ensures Mentioned(init + [last], pid) <==> Mentioned(init, pid) || (last.Chunk? && last.paperId == pid)
  {
    var lines := init + [last];
    assert forall i :: 0 <= i < |init| ==> lines[i] == init[i];
    if Mentioned(lines, pid) {
      var i :| 0 <= i < |lines| && lines[i].Chunk? && lines[i].paperId == pid;
      if i < |init| { assert init[i] == lines[i]; }
    }
    if last.Chunk? && last.paperId == pid { assert lines[|init|] == last; }
  }

  /** What the fields of `pid` were before the line (a new paper starts empty). */
  function Before(g: Grouping, pid: PaperId): Fields {
    if pid in g.projects then g.projects[pid] else EmptyFields
  }

  lemma BeforeSpec(init: seq<Line>, g: Grouping, pid: PaperId, sec: string)
    requires GroupingOk(init, g)
    ensures IsField(sec) && sec != "title" ==> FieldOf(Before(g, pid), sec) == Collected(init, pid, sec)
    ensures Before(g, pid).title == LastTitle(init, pid)
  {
    if pid !in g.projects { NotMentionedEmpty(init, pid, sec); }
  }

  lemma CollectedSnoc(init: seq<Line>, last: Line, pid: PaperId, sec: string)
    ensures Collected(init + [last], pid, sec) ==
      Collected(init, pid, sec) + (if SectionLine(last, pid, sec) && last.text.Some? then " " + last.text.value else "")
  {
    assert (init + [last])[..|init|] == init;
  }

  lemma StepField(init: seq<Line>, last: Line, g: Grouping, pid: PaperId, sec: string)
    requires GroupingOk(init, g) && !Raises(last) && last.Chunk?
    requires pid in Step(g, last).value.projects && IsField(sec) && sec != "title"
    ensures FieldOf(Step(g, last).value.projects[pid], sec) == Collected(init + [last], pid, sec)
  {
    CollectedSnoc(init, last, pid, sec);
    BeforeSpec(init, g, pid, sec);
    if pid != last.paperId {
      assert !SectionLine(last, pid, sec);
      assert Step(g, last).value.projects[pid] == Before(g, pid);
    } else {
      StepFieldSame(init, last, g, sec);
    }
  }

  lemma StepFieldSame(init: seq<Line>, last: Line, g: Grouping, sec: string)
    requires !Raises(last) && last.Chunk? && IsField(sec) && sec != "title"
    ensures last.paperId in Step(g, last).value.projects
    ensures FieldOf(Step(g, last).value.projects[last.paperId], sec) ==
      FieldOf(Before(g, last.paperId), sec) +
      (if SectionLine(last, last.paperId, sec) && last.text.Some? then " " + last.text.value else "")
  {
    var s := Lower(last.section.value);
    var f := Updated(Before(g, last.paperId), s, last.text);
    assert Step(g, last).value.projects[last.paperId] == f;
    assert SectionLine(last, last.paperId, sec) <==> sec == s;
  }

  lemma StepTitle(init: seq<Line>, last: Line, g: Grouping, pid: PaperId)
    requires GroupingOk(init, g) && !Raises(last) && last.Chunk?
    requires pid in Step(g, last).value.projects
    ensures Step(g, last).value.projects[pid].title == LastTitle(init + [last], pid)
  {
    var lines := init + [last];
    assert lines[..|lines| - 1] == init;
    BeforeSpec(init, g, pid, "title");
    if pid != last.paperId {
      assert !SectionLine(last, pid, "title");
    } else {
      var s := Lower(last.section.value);
      assert Step(g, last).value.projects[pid] == Updated(Before(g, pid), s, last.text);
      if s == "title" { assert SectionLine(last, pid, "title"); } else { assert !SectionLine(last, pid, "title"); }
    }
  }

  lemma StepOk(init: seq<Line>, last: Line, g: Grouping)
    requires GroupingOk(init, g) && !Raises(last)
    ensures Step(g, last).Some? && GroupingOk(init + [last], Step(g, last).value)
  {
    var lines := init + [last];
    forall pid ensures Mentioned(lines, pid) <==> Mentioned(init, pid) || (last.Chunk? && last.paperId == pid) {
      StepMentioned(init, last, pid);
    }
    if last.Chunk? {
      var g2 := Step(g, last).value;
      forall pid, sec | pid in g2.projects && IsField(sec) && sec != "title"
        ensures FieldOf(g2.projects[pid], sec) == Collected(lines, pid, sec)
      {
        StepField(init, last, g, pid, sec);
      }
      forall pid | pid in g2.projects ensures g2.projects[pid].title == LastTitle(lines, pid) {
        StepTitle(init, last, g, pid);
      }
    } else {
      forall pid, sec | pid in g.projects && IsField(sec) && sec != "title"
        ensures FieldOf(g.projects[pid], sec) == Collected(lines, pid, sec)
      {
        assert lines[..|lines| - 1] == init;
      }
      forall pid | pid in g.projects ensures g.projects[pid].title == LastTitle(lines, pid) {
        assert lines[..|lines| - 1] == init;
      }
    }
  }

  // Merging and filtering

  function NonEmptyParts(parts: seq<string>): (r: seq<string>)
    ensures forall k :: 0 <= k < |r| ==> r[k] != ""
    ensures forall x :: x in r <==> x in parts && x != ""
  {
    FilterMembershipAll(parts, (x: string) => x != "");
    Filter(parts, (x: string) => x != "")
  }

  lemma FilterMembershipAll<T>(s: seq<T>, p: T -> bool)
    ensures forall x :: x in Filter(s, p) <==> x in s && p(x)
  {
    forall x ensures x in Filter(s, p) <==> x in s && p(x) {
      FilterMembership(s, p, x);
    }
  }

  /** `' '.join([p[f] for f in fields if p.get(f)])`: the non-empty fields
      in the order abstract, results, conclusion, methods, title. */
  function MergedText(f: Fields): string {
    Join(NonEmptyParts([f.summary, f.results, f.conclusion, f.methods, f.title]), " ")
  }

  lemma {:induction false} JoinEmptyIff(parts: seq<string>, sep: string)
    requires forall k :: 0 <= k < |parts| ==> parts[k] != ""
    ensures Join(parts, sep) == "" <==> parts == []
  {
    if |parts| > 1 {
      assert |Join(parts, sep)| >= |parts[0]|;
    }
  }

  /** The merged text is empty exactly when all five fields are. */
  lemma MergedTextEmptyIff(f: Fields)
    ensures MergedText(f) == "" <==>
      f.summary == "" && f.results == "" && f.conclusion == "" && f.methods == "" && f.title == ""
  {
    var parts := [f.summary, f.results, f.conclusion, f.methods, f.title];
    var ne := NonEmptyParts(parts);
    JoinEmptyIff(ne, " ");
    if ne != [] {
      assert ne[0] in parts;
    } else {
      assert f.summary !in ne && f.results !in ne && f.conclusion !in ne && f.methods !in ne && f.title !in ne;
    }
  }

  /** A row of `self.df`.  Papers loaded from JSONL have no
      `funding_amount`; `None` reads as the default 0. */
  datatype Paper = Paper(paperId: PaperId, title: string, text: string, summary: string,
                         methods: string, results: string, conclusion: string, funding: Option<Funding>)

  function ToPaper(pid: PaperId, f: Fields): (p: Paper)
    ensures p.funding.None?
  {
    Paper(pid, f.title, MergedText(f), f.summary, f.methods, f.results, f.conclusion, None)
  }

  function MergeAll(order: seq<PaperId>, projects: map<PaperId, Fields>): (ps: seq<Paper>)
    requires forall k :: 0 <= k < |order| ==> order[k] in projects
    ensures |ps| == |order|
    ensures forall k :: 0 <= k < |order| ==> ps[k] == ToPaper(order[k], projects[order[k]])
  {
    seq(|order|, k requires 0 <= k < |order| => ToPaper(order[k], projects[order[k]]))
  }

  /** Papers whose stripped text has more than 50 characters. */
  predicate Meaningful(p: Paper) { |Strip(p.text)| > 50 }

  function LoadedPapers(g: Grouping): seq<Paper>
    requires forall k :: 0 <= k < |g.order| ==> g.order[k] in g.projects
  {
    Filter(MergeAll(g.order, g.projects), Meaningful)
  }

  /** The kept papers are the merged papers with meaningful text, in order,
      and none of them carries a funding amount. */
  lemma LoadedPapersSpec(g: Grouping, p: Paper)
    requires forall k :: 0 <= k < |g.order| ==> g.order[k] in g.projects
    ensures p in LoadedPapers(g) <==> p in MergeAll(g.order, g.projects) && |Strip(p.text)| > 50
    ensures p in LoadedPapers(g) ==> p.funding.None?
  {
    FilterMembership(MergeAll(g.order, g.projects), Meaningful, p);
  }

  // ---------------------------------------------------------------------
  // Clusters

  /** The raw `funding_amount` values of the papers; a missing one is 0. */
  function RawFundings(papers: seq<Paper>): seq<Funding> {
    FundingsOrZero(papers, (p: Paper) => p.funding)
  }

  /** `sum(p.get('funding_amount', 0) for p in ...)`; a string raises. */
  function RawSum(fund: seq<Funding>, ms: seq<nat>): Option<real>
    requires forall k :: 0 <= k < |ms| ==> ms[k] < |fund|
  {
    if ms == [] then Some(0.0)
    else
      match RawSum(fund, ms[1..])
      case None => None
      case Some(rest) => if fund[ms[0]].Text? then None else Some(fund[ms[0]].value + rest)
  }

  /** The sum raises exactly when one of the summed values is a string. */
  lemma {:induction false} RawSumNone(fund: seq<Funding>, ms: seq<nat>)
    requires forall k :: 0 <= k < |ms| ==> ms[k] < |fund|
    ensures RawSum(fund, ms).None? <==> exists k :: 0 <= k < |ms| && fund[ms[k]].Text?
  {
    if ms != [] {
      RawSumNone(fund, ms[1..]);
      if exists k :: 0 <= k < |ms| && fund[ms[k]].Text? {
        var k :| 0 <= k < |ms| && fund[ms[k]].Text?;
        if k > 0 { assert fund[ms[1..][k - 1]].Text?; }
      }
    }
  }

  /** The entries sim[a][b], a < b, collected by the double loop over the members. */
  function RowSims(m: Matrix, x: nat, ms: seq<nat>): seq<real>
    requires IsSquare(m) && x < |m| && forall k :: 0 <= k < |ms| ==> ms[k] < |m|
  {
    if ms == [] then []
    else (if x < ms[0] then [m[x][ms[0]]] else []) + RowSims(m, x, ms[1..])
  }

  function PairSims(m: Matrix, xs: seq<nat>, ms: seq<nat>): seq<real>
    requires IsSquare(m)
    requires forall k :: 0 <= k < |xs| ==> xs[k] < |m|
    requires forall k :: 0 <= k < |ms| ==> ms[k] < |m|
  {
    if xs == [] then [] else RowSims(m, xs[0], ms) + PairSims(m, xs[1..], ms)
  }

  /** `round(np.mean(sim_scores), 3)`, or 0 when there are no pairs. */
  function ClusterAverage(m: Matrix, ms: seq<nat>): real
    requires IsSquare(m) && forall k :: 0 <= k < |ms| ==> ms[k] < |m|
  {
    var sims := PairSims(m, ms, ms);
    if sims == [] then 0.0 else Round3(Mean(sims))
  }

  lemma {:induction false} RowSimsBounds(m: Matrix, x: nat, ms: seq<nat>, lo: real, hi: real)
    requires IsSquare(m) && x < |m| && forall k :: 0 <= k < |ms| ==> ms[k] < |m|
    requires forall k :: 0 <= k < |ms| && x < ms[k] ==> lo <= m[x][ms[k]] <= hi
    ensures forall k :: 0 <= k < |RowSims(m, x, ms)| ==> lo <= RowSims(m, x, ms)[k] <= hi
  {
    if ms != [] {
      RowSimsBounds(m, x, ms[1..], lo, hi);
    }
  }

  lemma {:induction false} PairSimsBounds(m: Matrix, xs: seq<nat>, ms: seq<nat>, lo: real, hi: real)
    requires IsSquare(m)
    requires forall k :: 0 <= k < |xs| ==> xs[k] < |m|
    requires forall k :: 0 <= k < |ms| ==> ms[k] < |m|
    requires forall a, b :: 0 <= a < |xs| && 0 <= b < |ms| && xs[a] < ms[b] ==> lo <= m[xs[a]][ms[b]] <= hi
    ensures forall k :: 0 <= k < |PairSims(m, xs, ms)| ==> lo <= PairSims(m, xs, ms)[k] <= hi
  {
    if xs != [] {
      RowSimsBounds(m, xs[0], ms, lo, hi);
      PairSimsBounds(m, xs[1..], ms, lo, hi);
    }
  }

  lemma RowSimsNonEmpty(m: Matrix, x: nat, ms: seq<nat>, k: nat)
    requires IsSquare(m) && x < |m| && forall k :: 0 <= k < |ms| ==> ms[k] < |m|
    requires k < |ms| && x < ms[k]
    ensures RowSims(m, x, ms) != []
  {
    if k > 0 { RowSimsNonEmpty(m, x, ms[1..], k - 1); }
  }

  /** The average over a cluster of at least two members lies, up to the
      rounding to three decimals, between the smallest and the largest of
      the member-pair similarities (it is not bounded by the threshold,
      because non-adjacent members count too). */
  lemma ClusterAverageBounds(m: Matrix, ms: seq<nat>, lo: real, hi: real)
    requires IsSquare(m) && forall k :: 0 <= k < |ms| ==> ms[k] < |m|
    requires |ms| >= 2 && ms[0] < ms[1]
    requires forall a, b :: 0 <= a < |ms| && 0 <= b < |ms| && ms[a] < ms[b] ==> lo <= m[ms[a]][ms[b]] <= hi
    ensures lo - 1.0 / 2000.0 <= ClusterAverage(m, ms) <= hi + 1.0 / 2000.0
  {
    var sims := PairSims(m, ms, ms);
    RowSimsNonEmpty(m, ms[0], ms, 1);
    assert sims != [];
    PairSimsBounds(m, ms, ms, lo, hi);
    MeanBounds(sims, lo, hi);
  }

  datatype Cluster = Cluster(clusterId: nat, members: seq<nat>, averageSimilarity: real,
                             size: nat, potentialSavings: real)

  predicate IndicesBelow(ms: seq<nat>, n: nat) { forall k :: 0 <= k < |ms| ==> ms[k] < n }

  lemma MembersBelowBound(comp: seq<nat>, k: nat)
    ensures IndicesBelow(Members(comp, k), |comp|)
  {
    var ms := Members(comp, k);
    forall i | 0 <= i < |ms| ensures ms[i] < |comp| {
      MembersExact(comp, k, ms[i]);
    }
  }

  /** `ms` is, in increasing order, the set of nodes reachable from any of its members. */
  ghost predicate IsComponent(m: Matrix, t: real, ms: seq<nat>) {
    ms != [] &&
    (forall i, j :: 0 <= i < j < |ms| ==> ms[i] < ms[j]) &&
    IndicesBelow(ms, |m|) &&
    (forall i, v: nat :: 0 <= i < |ms| && v < |m| ==> (Reach(m, t, ms[i], v) <==> v in ms))
  }

  /** The fields of the cluster at position `pos` of the result. */
  predicate ClusterFields(m: Matrix, fund: seq<Funding>, c: Cluster, pos: nat)
    requires IsSquare(m) && |fund| == |m|
  {
    IndicesBelow(c.members, |m|) &&
    c.clusterId == pos + 1 && |c.members| >= 2 && c.size == |c.members| &&
    c.averageSimilarity == ClusterAverage(m, c.members) &&
    RawSum(fund, c.members[1..]) == Some(c.potentialSavings)
  }

  ghost predicate InSomeCluster(cs: seq<Cluster>, u: nat) {
    exists k :: 0 <= k < |cs| && u in cs[k].members
  }

  /** Some node other than the first of its component has a string funding,
      so `sum` raises. */
  ghost predicate SumRaises(m: Matrix, t: real, fund: seq<Funding>) {
    exists u: nat, v: nat :: v < u < |m| && u < |fund| && Reach(m, t, v, u) && fund[u].Text?
  }

  ghost predicate HasEdge(m: Matrix, t: real) {
    exists u: nat, v: nat :: Above(m, t, u, v)
  }

  /** Clusters are numbered 1, 2, ... and carry their size, average and savings. */
  predicate AllFields(m: Matrix, fund: seq<Funding>, cs: seq<Cluster>)
    requires IsSquare(m) && |fund| == |m|
  {
    forall k :: 0 <= k < |cs| ==> ClusterFields(m, fund, cs[k], k)
  }

  /** Every cluster is a connected component. */
  ghost predicate AllComponents(m: Matrix, t: real, cs: seq<Cluster>) {
    forall k :: 0 <= k < |cs| ==> IsComponent(m, t, cs[k].members)
  }

  /** Clusters come in the order of their smallest members. */
  predicate FirstMembersIncreasing(cs: seq<Cluster>) {
    forall i, j :: 0 <= i < j < |cs| ==> |cs[i].members| > 0 && |cs[j].members| > 0 && cs[i].members[0] < cs[j].members[0]
  }

  /** The clusters cover exactly the nodes with an edge. */
  ghost predicate Coverage(m: Matrix, t: real, cs: seq<Cluster>) {
    forall u: nat :: u < |m| ==> (InSomeCluster(cs, u) <==> exists v: nat :: Adj(m, t, u, v))
  }

  /** What `cluster_papers` promises for a matrix: no clusters exactly when
      there is no edge or a savings sum raises; otherwise the components of
      two or more nodes, numbered in order, covering every node with an edge. */
  ghost predicate ClustersSpec(m: Matrix, t: real, fund: seq<Funding>, cs: seq<Cluster>)
    requires IsSquare(m) && |fund| == |m|
  {
    (cs == [] <==> !HasEdge(m, t) || SumRaises(m, t, fund)) &&
    AllFields(m, fund, cs) && AllComponents(m, t, cs) && FirstMembersIncreasing(cs) &&
    (cs != [] ==> Coverage(m, t, cs))
  }

  /** The postcondition of `SimGraph.Components`. */
  ghost predicate Labelling(m: Matrix, t: real, comp: seq<nat>, reps: seq<nat>) {
    |comp| == |m| &&
    (forall v :: 0 <= v < |m| ==> comp[v] < |reps|) &&
    (forall k :: 0 <= k < |reps| ==> reps[k] < |m| && comp[reps[k]] == k) &&
    (forall i, j :: 0 <= i < j < |reps| ==> reps[i] < reps[j]) &&
    (forall v :: 0 <= v < |m| ==> reps[comp[v]] <= v) &&
    (forall u, v :: 0 <= u < |m| && 0 <= v < |m| ==> (comp[u] == comp[v] <==> Reach(m, t, u, v)))
  }

  lemma ReachBounded(m: Matrix, t: real, u: nat, v: nat)
    requires Reach(m, t, u, v) && u < |m|
    ensures v < |m|
  {
    var p :| IsPath(m, t, p) && p[0] == u && p[|p| - 1] == v;
    if |p| > 1 { assert Adj(m, t, p[|p| - 2], p[|p| - 1]); }
  }

  /** Every label class is a component whose first member is its representative. */
  lemma MembersComponent(m: Matrix, t: real, comp: seq<nat>, reps: seq<nat>, k: nat)
    requires Labelling(m, t, comp, reps) && k < |reps|
    ensures IsComponent(m, t, Members(comp, k))
    ensures Members(comp, k)[0] == reps[k]
  {
    var ms := Members(comp, k);
    MembersBelowBound(comp, k);
    MembersExact(comp, k, reps[k]);
    forall i, v: nat | 0 <= i < |ms| && v < |m| ensures Reach(m, t, ms[i], v) <==> v in ms {
      MembersExact(comp, k, ms[i]);
      MembersExact(comp, k, v);
    }
    MembersExact(comp, k, ms[0]);
    assert reps[comp[ms[0]]] <= ms[0];
  }

  /** The savings sum of label class `q` (all members but the first) raises. */
  predicate BadClass(fund: seq<Funding>, comp: seq<nat>, q: nat)
    requires |comp| <= |fund|
  {
    MembersBelowBound(comp, q);
    |Members(comp, q)| > 1 && RawSum(fund, Members(comp, q)[1..]).None?
  }

  /** No label class below `q` has a raising savings sum. */
  predicate NoBadBelow(fund: seq<Funding>, comp: seq<nat>, q: nat)
    requires |comp| <= |fund|
  {
    q == 0 || (NoBadBelow(fund, comp, q - 1) && !BadClass(fund, comp, q - 1))
  }

  lemma {:induction false} NoBadBelowIff(fund: seq<Funding>, comp: seq<nat>, q: nat)
    requires |comp| <= |fund|
    ensures NoBadBelow(fund, comp, q) <==> forall q' :: 0 <= q' < q ==> !BadClass(fund, comp, q')
  {
    if q > 0 { NoBadBelowIff(fund, comp, q - 1); }
  }

  lemma {:induction false} NoBadLater(fund: seq<Funding>, comp: seq<nat>, q: nat, k: nat)
    requires |comp| <= |fund| && q <= k && !NoBadBelow(fund, comp, q)
    ensures !NoBadBelow(fund, comp, k)
    decreases k - q
  {
    if q < k { NoBadLater(fund, comp, q + 1, k); }
  }

  /** The label classes below `k` with more than one member, in order. */
  function Big(comp: seq<nat>, k: nat): seq<nat> {
    if k == 0 then [] else Big(comp, k - 1) + (if |Members(comp, k - 1)| > 1 then [k - 1] else [])
  }

  lemma {:induction false} BigSpec(comp: seq<nat>, k: nat)
    ensures var r := Big(comp, k);
      (forall i :: 0 <= i < |r| ==> r[i] < k && |Members(comp, r[i])| > 1) &&
      (forall i, j :: 0 <= i < j < |r| ==> r[i] < r[j]) &&
      (forall q: nat :: q < k && |Members(comp, q)| > 1 ==> q in r)
  {
    if k > 0 {
      BigSpec(comp, k - 1);
      var pre := Big(comp, k - 1);
      var tail := if |Members(comp, k - 1)| > 1 then [k - 1] else [];
      var r := pre + tail;
      assert Big(comp, k) == r;
      forall i | 0 <= i < |r| ensures r[i] < k && |Members(comp, r[i])| > 1 {
        if i < |pre| { assert r[i] == pre[i]; }
      }
      forall i, j | 0 <= i < j < |r| ensures r[i] < r[j] {
        assert r[i] == pre[i];
        if j < |pre| { assert r[j] == pre[j]; }
      }
      forall q: nat | q < k && |Members(comp, q)| > 1 ensures q in r {
        if q < k - 1 { assert q in pre; } else { assert r[|pre|] == q; }
      }
    }
  }

  /** Cluster `c` at position `i` is built from label class `q`. */
  predicate ShapeAt(m: Matrix, fund: seq<Funding>, comp: seq<nat>, q: nat, c: Cluster, i: nat)
    requires IsSquare(m) && |fund| == |m| && |comp| == |m|
  {
    MembersBelowBound(comp, q);
    c.members == Members(comp, q) && c.clusterId == i + 1 && c.size == |c.members| &&
    c.averageSimilarity == ClusterAverage(m, c.members) &&
    |c.members| > 1 && RawSum(fund, c.members[1..]) == Some(c.potentialSavings)
  }

  predicate FoldShape(m: Matrix, fund: seq<Funding>, comp: seq<nat>, big: seq<nat>, cs: seq<Cluster>)
    requires IsSquare(m) && |fund| == |m| && |comp| == |m|
  {
    |cs| == |big| && forall i :: 0 <= i < |cs| ==> ShapeAt(m, fund, comp, big[i], cs[i], i)
  }

  lemma ShapeAppend(m: Matrix, fund: seq<Funding>, comp: seq<nat>, big: seq<nat>, cs: seq<Cluster>, q: nat, c: Cluster)
    requires IsSquare(m) && |fund| == |m| && |comp| == |m|
    requires FoldShape(m, fund, comp, big, cs) && ShapeAt(m, fund, comp, q, c, |cs|)
    ensures FoldShape(m, fund, comp, big + [q], cs + [c])
  {
    forall i | 0 <= i < |cs| + 1 ensures ShapeAt(m, fund, comp, (big + [q])[i], (cs + [c])[i], i) {
      if i < |cs| { assert (cs + [c])[i] == cs[i] && (big + [q])[i] == big[i]; }
    }
  }

  /** One iteration of the `for component` loop, for label class `q`. */
  method ClusterStep(m: Matrix, fund: seq<Funding>, comp: seq<nat>, q: nat, clusters: seq<Cluster>)
    returns (r: Option<seq<Cluster>>)
    requires IsSquare(m) && |fund| == |m| && |comp| == |m|
    requires FoldShape(m, fund, comp, Big(comp, q), clusters)
    ensures r.Some? ==> !BadClass(fund, comp, q) && FoldShape(m, fund, comp, Big(comp, q + 1), r.value)
    ensures r.None? ==> BadClass(fund, comp, q)
  {
    var ms := Members(comp, q);
    MembersBelowBound(comp, q);
    if |ms| > 1 {
      var savings := RawSum(fund, ms[1..]);
      if savings.None? {
        return None;
      }
      var c := Cluster(|clusters| + 1, ms, ClusterAverage(m, ms), |ms|, savings.value);
      assert ShapeAt(m, fund, comp, q, c, |clusters|);
      ShapeAppend(m, fund, comp, Big(comp, q), clusters, q, c);
      assert Big(comp, q + 1) == Big(comp, q) + [q];
      r := Some(clusters + [c]);
    } else {
      assert !BadClass(fund, comp, q);
      assert Big(comp, q + 1) == Big(comp, q);
      r := Some(clusters);
    }
  }

  /** The `for component in nx.connected_components(G)` loop over the label
      classes 0 .. k-1: for each class of two or more nodes, in class order,
      a cluster numbered by its position; `None` when the savings sum of
      such a class raises (the `except` branch). */
  method BuildClusters(m: Matrix, fund: seq<Funding>, comp: seq<nat>, k: nat) returns (r: Option<seq<Cluster>>)
    requires IsSquare(m) && |fund| == |m| && |comp| == |m|
    ensures r.Some? ==> FoldShape(m, fund, comp, Big(comp, k), r.value)
    ensures r.None? <==> !NoBadBelow(fund, comp, k)
  {
    var clusters: seq<Cluster> := [];
    var q := 0;
    while q < k
      invariant 0 <= q <= k
      invariant FoldShape(m, fund, comp, Big(comp, q), clusters)
      invariant NoBadBelow(fund, comp, q)
    {
      var next := ClusterStep(m, fund, comp, q, clusters);
      if next.None? {
        assert !NoBadBelow(fund, comp, q + 1);
        NoBadLater(fund, comp, q + 1, k);
        return None;
      }
      clusters := next.value;
      q := q + 1;
    }
    assert q == k;
    r := Some(clusters);
  }

  // ---------------------------------------------------------------------
  // From the fold to what `cluster_papers` promises

  /** Each cluster of the fold is a component, built as the source builds it. */
  lemma ClusterAt(m: Matrix, t: real, fund: seq<Funding>, comp: seq<nat>, reps: seq<nat>, cs: seq<Cluster>, i: nat)
    requires IsSquare(m) && |fund| == |m| && Labelling(m, t, comp, reps)
    requires FoldShape(m, fund, comp, Big(comp, |reps|), cs) && i < |cs|
    ensures ClusterFields(m, fund, cs[i], i) && IsComponent(m, t, cs[i].members)
    ensures cs[i].members == Members(comp, Big(comp, |reps|)[i])
    ensures cs[i].members[0] == reps[Big(comp, |reps|)[i]]
  {
    var big := Big(comp, |reps|);
    BigSpec(comp, |reps|);
    assert ShapeAt(m, fund, comp, big[i], cs[i], i);
    MembersComponent(m, t, comp, reps, big[i]);
  }

  /** A label class with two or more members holds a thresholded edge, and
      every node with an edge lies in such a class. */
  lemma BigClass(m: Matrix, t: real, comp: seq<nat>, reps: seq<nat>, u: nat)
    requires Labelling(m, t, comp, reps) && u < |m|
    ensures |Members(comp, comp[u])| > 1 <==> exists v: nat :: Adj(m, t, u, v)
  {
    var ms := Members(comp, comp[u]);
    MembersExact(comp, comp[u], u);
    if |ms| > 1 {
      var w := if ms[0] == u then ms[1] else ms[0];
      MembersExact(comp, comp[u], w);
      assert w != u && Reach(m, t, u, w);
      ReachOtherIffEdge(m, t, u);
    } else if v: nat :| Adj(m, t, u, v) {
      ReachEdge(m, t, u, v);
      MembersExact(comp, comp[u], v);
    }
  }

  /** No class of two or more members exists exactly when there is no edge. */
  lemma BigEmptyIff(m: Matrix, t: real, comp: seq<nat>, reps: seq<nat>)
    requires Labelling(m, t, comp, reps)
    ensures Big(comp, |reps|) == [] <==> !HasEdge(m, t)
  {
    var big := Big(comp, |reps|);
    BigSpec(comp, |reps|);
    if big != [] {
      var r := reps[big[0]];
      assert comp[r] == big[0];
      BigClass(m, t, comp, reps, r);
      var v: nat :| Adj(m, t, r, v);
      if Above(m, t, r, v) { assert HasEdge(m, t); } else { assert Above(m, t, v, r); }
    }
    if HasEdge(m, t) {
      var u: nat, v: nat :| Above(m, t, u, v);
      assert Adj(m, t, u, v);
      BigClass(m, t, comp, reps, u);
      assert comp[u] in big;
    }
  }

  /** Some class raises in the savings sum exactly when `SumRaises`. */
  lemma BadIffRaises(m: Matrix, t: real, fund: seq<Funding>, comp: seq<nat>, reps: seq<nat>)
    requires |fund| == |m| && Labelling(m, t, comp, reps)
    ensures !NoBadBelow(fund, comp, |reps|) <==> SumRaises(m, t, fund)
  {
    if !NoBadBelow(fund, comp, |reps|) {
      BadRaises(m, t, fund, comp, reps);
    }
    if SumRaises(m, t, fund) {
      RaisesBad(m, t, fund, comp, reps);
    }
  }

  lemma BadRaises(m: Matrix, t: real, fund: seq<Funding>, comp: seq<nat>, reps: seq<nat>)
    requires |fund| == |m| && Labelling(m, t, comp, reps)
    requires !NoBadBelow(fund, comp, |reps|)
    ensures SumRaises(m, t, fund)
  {
    NoBadBelowIff(fund, comp, |reps|);
    var q :| 0 <= q < |reps| && BadClass(fund, comp, q);
    var ms := Members(comp, q);
    MembersBelowBound(comp, q);
    MembersComponent(m, t, comp, reps, q);
    RawSumNone(fund, ms[1..]);
    var k :| 0 <= k < |ms[1..]| && fund[ms[1..][k]].Text?;
    assert ms[0] < ms[k + 1] && Reach(m, t, ms[0], ms[k + 1]);
  }

  lemma RaisesBad(m: Matrix, t: real, fund: seq<Funding>, comp: seq<nat>, reps: seq<nat>)
    requires |fund| == |m| && Labelling(m, t, comp, reps)
    requires SumRaises(m, t, fund)
    ensures !NoBadBelow(fund, comp, |reps|)
  {
    NoBadBelowIff(fund, comp, |reps|);
    var u: nat, v: nat :| v < u < |m| && u < |fund| && Reach(m, t, v, u) && fund[u].Text?;
    var q := comp[u];
    LaterMember(m, t, comp, reps, v, u);
    var ms := Members(comp, q);
    MembersBelowBound(comp, q);
    var k :| 1 <= k < |ms| && ms[k] == u;
    assert ms[1..][k - 1] == u;
    RawSumNone(fund, ms[1..]);
    assert BadClass(fund, comp, q);
  }

  /** A node reachable from a smaller one is not the first member of its
      label class. */
  lemma LaterMember(m: Matrix, t: real, comp: seq<nat>, reps: seq<nat>, v: nat, u: nat)
    requires Labelling(m, t, comp, reps) && v < u < |m| && Reach(m, t, v, u)
    ensures comp[u] < |reps|
    ensures exists k :: 1 <= k < |Members(comp, comp[u])| && Members(comp, comp[u])[k] == u
  {
    var q := comp[u];
    var ms := Members(comp, q);
    MembersComponent(m, t, comp, reps, q);
    MembersExact(comp, q, u);
    MembersExact(comp, q, v);
    var k :| 0 <= k < |ms| && ms[k] == u;
    assert k != 0 by { assert ms[0] == reps[q] <= v; }
  }

  lemma FoldFields(m: Matrix, t: real, fund: seq<Funding>, comp: seq<nat>, reps: seq<nat>, cs: seq<Cluster>)
    requires IsSquare(m) && |fund| == |m| && Labelling(m, t, comp, reps)
    requires FoldShape(m, fund, comp, Big(comp, |reps|), cs)
    ensures AllFields(m, fund, cs) && AllComponents(m, t, cs) && FirstMembersIncreasing(cs)
  {
    forall k | 0 <= k < |cs| ensures ClusterFields(m, fund, cs[k], k) && IsComponent(m, t, cs[k].members) {
      ClusterAt(m, t, fund, comp, reps, cs, k);
    }
    BigSpec(comp, |reps|);
    forall i, j | 0 <= i < j < |cs| ensures |cs[i].members| > 0 && |cs[j].members| > 0 && cs[i].members[0] < cs[j].members[0] {
      ClusterAt(m, t, fund, comp, reps, cs, i);
      ClusterAt(m, t, fund, comp, reps, cs, j);
    }
  }

  lemma FoldCoverage(m: Matrix, t: real, fund: seq<Funding>, comp: seq<nat>, reps: seq<nat>, cs: seq<Cluster>)
    requires IsSquare(m) && |fund| == |m| && Labelling(m, t, comp, reps)
    requires FoldShape(m, fund, comp, Big(comp, |reps|), cs)
    ensures Coverage(m, t, cs)
  {
    var big := Big(comp, |reps|);
    BigSpec(comp, |reps|);
    forall u: nat | u < |m| ensures InSomeCluster(cs, u) <==> exists v: nat :: Adj(m, t, u, v) {
      BigClass(m, t, comp, reps, u);
      if InSomeCluster(cs, u) {
        var k :| 0 <= k < |cs| && u in cs[k].members;
        ClusterAt(m, t, fund, comp, reps, cs, k);
        MembersExact(comp, big[k], u);
      }
      if |Members(comp, comp[u])| > 1 {
        var k :| 0 <= k < |big| && big[k] == comp[u];
        ClusterAt(m, t, fund, comp, reps, cs, k);
        MembersExact(comp, comp[u], u);
      }
    }
  }

  /** The fold over a labelling of the components meets `ClustersSpec`. */
  lemma FoldMeetsSpec(m: Matrix, t: real, fund: seq<Funding>, comp: seq<nat>, reps: seq<nat>, cs: seq<Cluster>)
    requires IsSquare(m) && |fund| == |m| && Labelling(m, t, comp, reps)
    requires FoldShape(m, fund, comp, Big(comp, |reps|), cs) && NoBadBelow(fund, comp, |reps|)
    ensures ClustersSpec(m, t, fund, cs)
  {
    BigEmptyIff(m, t, comp, reps);
    BadIffRaises(m, t, fund, comp, reps);
    FoldFields(m, t, fund, comp, reps, cs);
    FoldCoverage(m, t, fund, comp, reps, cs);
  }

  /** Two components that share a node have the same smallest member. */
  lemma SharedComponent(m: Matrix, t: real, a: seq<nat>, b: seq<nat>, u: nat)
    requires IsComponent(m, t, a) && IsComponent(m, t, b) && u in a && u in b
    ensures a[0] == b[0]
  {
    var ka :| 0 <= ka < |a| && a[ka] == u;
    var kb :| 0 <= kb < |b| && b[kb] == u;
    assert Reach(m, t, a[0], u);
    ReachSym(m, t, a[0], u);
    assert a[0] in b;
    var ib :| 0 <= ib < |b| && b[ib] == a[0];
    assert b[0] <= a[0] by { assert ib == 0 || b[0] < b[ib]; }
    assert Reach(m, t, b[0], u);
    ReachSym(m, t, b[0], u);
    assert b[0] in a;
    var ia :| 0 <= ia < |a| && a[ia] == b[0];
  }

  /** The clusters of two different positions share no member. */
  lemma ClustersDisjoint(m: Matrix, t: real, cs: seq<Cluster>, i: nat, j: nat, u: nat)
    requires AllComponents(m, t, cs) && FirstMembersIncreasing(cs)
    requires i < j < |cs|
    ensures !(u in cs[i].members && u in cs[j].members)
  {
    if u in cs[i].members && u in cs[j].members {
      SharedComponent(m, t, cs[i].members, cs[j].members, u);
      assert false;
    }
  }

  /** A component at a higher threshold lies inside the component, at the
      lower threshold, of any of its members. */
  lemma ComponentRefines(m: Matrix, t1: real, t2: real, low: seq<nat>, high: seq<nat>, v: nat)
    requires t1 <= t2 && IsComponent(m, t1, low) && IsComponent(m, t2, high)
    requires high[0] in low && v in high
    ensures v in low
  {
    var k :| 0 <= k < |high| && high[k] == v;
    assert Reach(m, t2, high[0], v);
    ReachMonotone(m, t1, t2, high[0], v);
    var i :| 0 <= i < |low| && low[i] == high[0];
  }

  // ---------------------------------------------------------------------
  // Relating pairs and clusters

  /** Without a raising savings sum, a node is in some cluster exactly when
      it is an endpoint of some reported pair. */
  lemma ClusterIffEndpoint(m: Matrix, t: real, fund: seq<Funding>, cs: seq<Cluster>, u: nat)
    requires IsSquare(m) && |fund| == |m| && ClustersSpec(m, t, fund, cs)
    requires !SumRaises(m, t, fund) && u < |m|
    ensures InSomeCluster(cs, u) <==>
      exists r :: r in ReportedPairs(m, fund, t) && (r.index1 == u || r.index2 == u)
  {
    var pairs := ReportedPairs(m, fund, t);
    if exists r :: r in pairs && (r.index1 == u || r.index2 == u) {
      var r :| r in pairs && (r.index1 == u || r.index2 == u);
      ReportedRecordShape(m, fund, t, r);
      assert HasEdge(m, t);
      if r.index1 == u { assert Adj(m, t, u, r.index2); } else { assert Adj(m, t, u, r.index1); }
    }
    if cs != [] && exists v: nat :: Adj(m, t, u, v) {
      var v: nat :| Adj(m, t, u, v);
      if Above(m, t, u, v) {
        ReportedPairsExact(m, fund, t, u, v);
      } else {
        ReportedPairsExact(m, fund, t, v, u);
      }
    }
  }

  /** Where every funding is 0, every reported pair has savings 0 and
      severity Low. */
  lemma UnfundedPairsLow(m: Matrix, fund: seq<Funding>, t: real, r: PairRecord)
    requires IsSquare(m) && |fund| == |m|
    requires forall k :: 0 <= k < |fund| ==> fund[k] == Amount(0.0)
    requires r in ReportedPairs(m, fund, t)
    ensures r.savings == 0.0 && r.severity == Low
  {
    ReportedRecordShape(m, fund, t, r);
  }

  /** Papers without a `funding_amount` read as funding 0. */
  lemma RawFundingsUnfunded(papers: seq<Paper>)
    requires forall k :: 0 <= k < |papers| ==> papers[k].funding.None?
    ensures forall k :: 0 <= k < |papers| ==> RawFundings(papers)[k] == Amount(0.0)
  {
  }

  /** The loaded JSONL papers carry no funding, so all their pairs are Low. */
  lemma LoadedPairsLow(g: Grouping, m: Matrix, t: real, r: PairRecord)
    requires forall k :: 0 <= k < |g.order| ==> g.order[k] in g.projects
    requires IsSquare(m) && |m| == |LoadedPapers(g)|
    requires r in ReportedPairs(m, RawFundings(LoadedPapers(g)), t)
    ensures r.savings == 0.0 && r.severity == Low
  {
    var ps := LoadedPapers(g);
    forall k | 0 <= k < |ps| ensures ps[k].funding.None? {
      LoadedPapersSpec(g, ps[k]);
    }
    RawFundingsUnfunded(ps);
    UnfundedPairsLow(m, RawFundings(ps), t, r);
  }

  /** Similarity 0.9 on 0-1 and 1-2, and 0 on 0-2. */
  const Chain: Matrix := [[1.0, 0.9, 0.0], [0.9, 1.0, 0.9], [0.0, 0.9, 1.0]]

  /** At threshold 0.8, {0, 1, 2} is a component of `Chain`... */
  lemma ChainComponent()
    ensures IsSquare(Chain) && IsComponent(Chain, 0.8, [0, 1, 2])
  {
    var m, ms: seq<nat> := Chain, [0, 1, 2];
    assert Adj(m, 0.8, 0, 1) && Adj(m, 0.8, 1, 2);
    ReachEdge(m, 0.8, 0, 1);
    ReachEdge(m, 0.8, 1, 2);
    ReachTrans(m, 0.8, 0, 1, 2);
    ReachRefl(m, 0.8, 0);
    ReachSym(m, 0.8, 0, 1);
    ReachSym(m, 0.8, 0, 2);
    forall i, v: nat | 0 <= i < 3 && v < 3 ensures Reach(m, 0.8, ms[i], v) {
      ReachTrans(m, 0.8, ms[i], 0, v);
    }
  }

  /** ...whose average similarity 0.6 lies below the threshold, because the
      average counts every member pair and not only the edges. */
  lemma ChainAverage()
    ensures IsSquare(Chain) && ClusterAverage(Chain, [0, 1, 2]) == 0.6
  {
    ChainSims();
    ChainMean();
  }

  lemma ChainSims()
    ensures IsSquare(Chain) && PairSims(Chain, [0, 1, 2], [0, 1, 2]) == [0.9, 0.0, 0.9]
  {
    var m, ms: seq<nat> := Chain, [0, 1, 2];
    assert RowSims(m, 2, ms) == [];
    assert RowSims(m, 1, ms) == [0.9];
    assert RowSims(m, 0, ms) == [0.9, 0.0];
    assert ms[1..][1..][1..] == [];
  }

  lemma ChainMean()
    ensures Round3(Mean([0.9, 0.0, 0.9])) == 0.6
  {
    assert Sum([0.9, 0.0, 0.9]) == 1.8;
    RoundHalfEvenOfInt(600);
    assert 0.6 * 1000.0 == 600 as real;
  }

  // ---------------------------------------------------------------------
  // The service

  /** The result of `get_paper_similarity_analysis` under `data`. */
  datatype SimilarityAnalysis = SimilarityAnalysis(
    totalSimilarPairs: nat, totalClusters: nat, totalPotentialSavings: real,
    severityBreakdown: Breakdown, averageSimilarity: real,
    topSimilarPairs: seq<PairRecord>, clusters: seq<Cluster>, thresholdUsed: real)

  /** The papers `_load_projects_jsonl` installs, or `None` when it raises. */
  function LoadResult(lines: seq<Line>): (r: Option<seq<Paper>>)
    ensures r.None? <==> exists i :: 0 <= i < |lines| && Raises(lines[i])
  {
    GroupSpec(lines);
    match Group(lines)
    case None => None
    case Some(g) => GroupKeys(lines); Some(LoadedPapers(g))
  }

  /** Every key of the insertion order is a key of the dictionary. */
  lemma GroupKeys(lines: seq<Line>)
    requires Group(lines).Some?
    ensures forall k :: 0 <= k < |Group(lines).value.order| ==> Group(lines).value.order[k] in Group(lines).value.projects
  {
    GroupSpec(lines);
  }

  /** Two numeric paper ids 5 and 6 stay two papers, a line holding a JSON
      array makes the load fail, and so does an object whose `paper_id` is
      an array. */
  lemma JsonValueLines()
    ensures var two := [Chunk(NumberId(5.0), Some("title"), Some("a")), Chunk(NumberId(6.0), Some("title"), Some("b"))];
      Group(two).Some? && Group(two).value.order == [NumberId(5.0), NumberId(6.0)]
    ensures LoadResult([Undecodable, NonObject]).None?
    ensures LoadResult([Chunk(Unhashable, Some("title"), Some("t"))]).None?
  {
    var two := [Chunk(NumberId(5.0), Some("title"), Some("a")), Chunk(NumberId(6.0), Some("title"), Some("b"))];
    assert two[..1] == [two[0]] && two[..1][..0] == [];
    assert Raises([Undecodable, NonObject][1]);
    assert Raises([Chunk(Unhashable, Some("title"), Some("t"))][0]);
  }

  /** `PaperSimilarityService`: the loaded papers (`df`) and the similarity
      matrix computed for them. */
  class PaperSimilarityService {
    var papers: Option<seq<Paper>>
    var matrix: Option<Matrix>

    /** The matrix, when present, is square (it is the output of
        `cosine_similarity`) and was computed from loaded papers, which are
        never unloaded; a later load may leave it stale. */
    predicate Valid()
      reads this
    {
      matrix.Some? ==> papers.Some? && IsSquare(matrix.value)
    }

    /** The matrix, when present, was computed for the loaded papers. */
    predicate Current()
      reads this
    {
      matrix.Some? ==> papers.Some? && IsSquare(matrix.value) && |matrix.value| == |papers.value|
    }

    constructor()
      ensures papers.None? && matrix.None? && Valid() && Current()
    {
      papers := None;
      matrix := None;
    }

    /** `_load_projects_jsonl` over the lines of the file: on success the
        papers are the merged ones with meaningful text, and the result says
        whether there is at least one; on an exception nothing changes.  The
        matrix is kept, so it is current afterwards only if the number of
        papers did not change. */
    method LoadProjectsJsonl(lines: seq<Line>) returns (ok: bool)
      requires Valid()
      modifies this
      ensures Valid()
      ensures LoadResult(lines).None? ==> !ok && papers == old(papers)
      ensures LoadResult(lines).Some? ==> papers == LoadResult(lines) && ok == (|papers.value| > 0)
      ensures matrix == old(matrix)
    {
      var g := GroupChunks(lines);
      if g.None? {
        return false;
      }
      GroupKeys(lines);
      var kept := Filter(MergeAll(g.value.order, g.value.projects), Meaningful);
      papers := Some(kept);
      ok := |kept| > 0;
    }

    /** `prepare_similarity_analysis` with the matrix `sim` the embedding
        model or, failing that, the vectoriser produced for the loaded
        papers, `None` when the vectoriser raised too (an empty vocabulary):
        fails without papers or without a matrix. */
    method PrepareSimilarityAnalysis(sim: Option<Matrix>) returns (ok: bool)
      requires Valid()
      requires papers.Some? && sim.Some? ==> IsSquare(sim.value) && |sim.value| == |papers.value|
      modifies this
      ensures Valid()
      ensures ok <==> old(papers).Some? && |old(papers).value| > 0 && sim.Some?
      ensures ok ==> Current()
      ensures papers == old(papers)
      ensures matrix == if ok then sim else old(matrix)
    {
      if papers.None? || |papers.value| == 0 || sim.None? {
        return false;
      }
      matrix := sim;
      ok := true;
    }

    /** `find_similar_papers`: no pairs without a matrix; `None` when the
        loops index past a stale matrix, which raises. */
    method FindSimilarPapers(t: real) returns (r: Option<seq<PairRecord>>)
      requires Valid()
      ensures matrix.None? ==> r == Some([])
      ensures matrix.Some? ==> r == SimilarPairs(matrix.value, RawFundings(papers.value), t)
      ensures Current() && matrix.Some? ==> r == Some(ReportedPairs(matrix.value, RawFundings(papers.value), t))
    {
      if matrix.None? {
        return Some([]);
      }
      var m := matrix.value;
      var fund := RawFundings(papers.value);
      SimilarPairsSpec(m, fund, t);
      if |fund| > |m| {
        if |fund| >= 2 {
          return None;
        }
        return Some([]);
      }
      var pairs := FindPairs(Block(m, |fund|), fund, t);
      r := Some(pairs);
    }

    /** `cluster_papers`: no clusters without a matrix or when a stale
        matrix is indexed past its end (the error is caught); otherwise the
        clusters `ClustersSpec` describes over the rows of the current
        papers. */
    method ClusterPapers(t: real) returns (cs: seq<Cluster>)
      requires Valid()
      ensures matrix.None? ==> cs == []
      ensures matrix.Some? && |papers.value| > |matrix.value| ==> cs == []
      ensures matrix.Some? && |papers.value| <= |matrix.value| ==>
        ClustersSpec(Block(matrix.value, |papers.value|), t, RawFundings(papers.value), cs)
      ensures Current() && matrix.Some? ==> ClustersSpec(matrix.value, t, RawFundings(papers.value), cs)
    {
      if matrix.None? {
        return [];
      }
      var fund := RawFundings(papers.value);
      if |fund| > |matrix.value| {
        return [];
      }
      var m := Block(matrix.value, |fund|);
      if |fund| == |matrix.value| {
        BlockWhole(matrix.value);
      }
      var comp, reps := Components(m, t);
      var r := BuildClusters(m, fund, comp, |reps|);
      if r.None? {
        BadIffRaises(m, t, fund, comp, reps);
        cs := [];
      } else {
        FoldMeetsSpec(m, t, fund, comp, reps, r.value);
        cs := r.value;
      }
    }

    /** `get_paper_similarity_analysis`: one threshold for pairs and clusters;
        clusters only when `useClustering`; `None` (`success` false) when
        `find_similar_papers` raised. */
    method GetPaperSimilarityAnalysis(t: real, useClustering: bool) returns (r: Option<SimilarityAnalysis>)
      requires Valid()
      ensures r.None? <==> matrix.Some? && SimilarPairs(matrix.value, RawFundings(papers.value), t).None?
      ensures Current() ==> r.Some?
      ensures r.Some? ==>
        var pairs := if matrix.None? then [] else SimilarPairs(matrix.value, RawFundings(papers.value), t).value;
        var a := r.value;
        a.totalSimilarPairs == |pairs| &&
        a.severityBreakdown == CountSeverities(pairs) &&
        a.totalPotentialSavings == Sum(SavingsOf(pairs)) &&
        a.averageSimilarity == AverageScore(pairs) &&
        a.topSimilarPairs == Take(pairs, 10) &&
        a.totalClusters == |a.clusters| &&
        (!useClustering || matrix.None? ==> a.clusters == []) &&
        a.thresholdUsed == t
      ensures r.Some? && useClustering && Current() && matrix.Some? ==>
        r.value.totalSimilarPairs == |ReportedPairs(matrix.value, RawFundings(papers.value), t)| &&
        ClustersSpec(matrix.value, t, RawFundings(papers.value), r.value.clusters)
    {
      if matrix.Some? {
        SimilarPairsSpec(matrix.value, RawFundings(papers.value), t);
      }
      var found := FindSimilarPapers(t);
      if found.None? {
        return None;
      }
      var pairs := found.value;
      var clusters: seq<Cluster> := [];
      if useClustering {
        clusters := ClusterPapers(t);
      }
      var breakdown := Tally(pairs);
      var avg := if pairs == [] then 0.0 else Round3(Mean(ScoresOf(pairs)));
      r := Some(SimilarityAnalysis(|pairs|, |clusters|, Sum(SavingsOf(pairs)), breakdown, avg,
                                   Take(pairs, 10), clusters, t));
    }
  }

  /** A matrix left over from fewer papers makes the analysis fail as soon
      as two or more papers are loaded. */
  lemma StaleMatrixFails(m: Matrix, papers: seq<Paper>, t: real)
    requires IsSquare(m) && |papers| > |m| && |papers| >= 2
    ensures SimilarPairs(m, RawFundings(papers), t).None?
  {
    SimilarPairsSpec(m, RawFundings(papers), t);
  }

  /** The severity counts of an analysis add up to its number of pairs. */
  lemma AnalysisBreakdownTotal(a: SimilarityAnalysis, pairs: seq<PairRecord>)
    requires a.totalSimilarPairs == |pairs| && a.severityBreakdown == CountSeverities(pairs)
    ensures Total(a.severityBreakdown) == a.totalSimilarPairs
  {
    CountSeveritiesTotal(pairs);
  }
}
