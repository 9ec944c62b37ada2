/** The knowledge-graph panel: the relation graph among the papers a user
    has ticked (keyword overlap and shared methodology), the selection
    toggle, the view filters over the graph fetched from the server, and the
    "top papers" strip.  The graph itself arrives as data; drawing and the
    circular layout are not modelled. */
module KnowledgeGraph {
  import opened Wrappers
  import opened Numeric
  import opened Text
  import opened Sorting
  import AppStore

  /** A paper handed to the panel. */
  datatype Paper = Paper(id: string, title: string, keywords: Option<seq<string>>, citations: Option<int>,
                         funding: Option<real>, methodology: Option<string>)

  /** The longest title shown in full on a node. */
  const LabelLength := 30

  /** A node of the relation graph; `hue` is the colour angle `index * 90`. */
  datatype IntraNode = IntraNode(id: string, caption: string, hue: int, citations: int, methodology: string)

  datatype EdgeKind = Strong | Weak

  /** An edge of the relation graph. */
  datatype IntraEdge = IntraEdge(source: string, target: string, strength: real, kind: EdgeKind)

  /** A title cut down to 30 characters with `'...'` appended when longer. */
  function NodeCaption(title: string): (c: string)
    ensures |c| <= LabelLength + 3
    ensures |title| <= LabelLength ==> c == title
    ensures |title| > LabelLength ==> |c| == LabelLength + 3 && c[..LabelLength] == title[..LabelLength]
  {
    if |title| > LabelLength then title[..LabelLength] + "..." else title
  }

  /** `citations || 0` and `methodology || 'Research'`. */
  function CitationsOrZero(p: Paper): int { match p.citations case Some(c) => c case None => 0 }
  function MethodologyOrDefault(p: Paper): string {
    match p.methodology case Some(m) => if m == "" then "Research" else m case None => "Research"
  }

  function MakeNode(p: Paper, index: int): IntraNode {
    IntraNode(p.id, NodeCaption(p.title), index * 90, CitationsOrZero(p), MethodologyOrDefault(p))
  }

  /** The nodes for `data`, numbered from `index` on. */
  function NodesFrom(data: seq<Paper>, index: int): (r: seq<IntraNode>)
    ensures |r| == |data|
    ensures forall k :: 0 <= k < |r| ==> r[k] == MakeNode(data[k], index + k)
  {
    if data == [] then [] else [MakeNode(data[0], index)] + NodesFrom(data[1..], index + 1)
  }

  /** The lower-cased keywords of a paper, as a set. */
  function KeywordSet(p: Paper): set<string> {
    set k | k in p.keywords.GetOr([]) :: Lower(k)
  }

  /** Overlap of two sets: shared elements over the larger size (at least 1). */
  function Overlap<T>(a: set<T>, b: set<T>): real {
    |a * b| as real / IntMax(IntMax(|a|, |b|), 1) as real
  }

  /** Keyword overlap of two papers. */
  function Similarity(a: Paper, b: Paper): real { Overlap(KeywordSet(a), KeywordSet(b)) }

  lemma {:induction false} SubsetSize<T>(s: set<T>, t: set<T>)
    requires s <= t
    ensures |s| <= |t|
    decreases |t|
  {
    if s != {} {
      var x :| x in s;
      SubsetSize(s - {x}, t - {x});
    }
  }

  /** The overlap lies in [0, 1]. */
  lemma OverlapBounds<T>(a: set<T>, b: set<T>)
    ensures 0.0 <= Overlap(a, b) <= 1.0
  {
    SubsetSize(a * b, a);
    SubsetSize(a * b, b);
    var n, d := |a * b|, IntMax(IntMax(|a|, |b|), 1);
    assert n <= d;
    FractionAtMostOne(n, d);
  }

  lemma FractionAtMostOne(n: nat, d: nat)
    requires 1 <= d && n <= d
    ensures n as real / d as real <= 1.0
  {
    var q := n as real / d as real;
    assert q * d as real == n as real;
    ProductCancel(q, d as real);
  }

  lemma ProductCancel(q: real, d: real)
    requires d > 0.0 && q * d <= d
    ensures q <= 1.0
  {
    assert (q - 1.0) * d <= 0.0;
  }

  /** The overlap does not depend on the order of the two sets. */
  lemma OverlapSymmetric<T>(a: set<T>, b: set<T>)
    ensures Overlap(a, b) == Overlap(b, a)
  {
    assert a * b == b * a;
  }

  /** Two equal non-empty sets overlap fully. */
  lemma OverlapEqual<T>(a: set<T>)
    requires a != {}
    ensures Overlap(a, a) == 1.0
  {
    assert a * a == a;
    var n := |a|;
    assert IntMax(IntMax(n, n), 1) == n;
    assert n as real / n as real == 1.0;
  }

  /** The keyword overlap of two papers lies in [0, 1], does not depend on
      their order, and is 1 for two papers with the same non-empty keyword set. */
  lemma SimilaritySpec(a: Paper, b: Paper)
    ensures 0.0 <= Similarity(a, b) <= 1.0
    ensures Similarity(a, b) == Similarity(b, a)
    ensures KeywordSet(a) == KeywordSet(b) != {} ==> Similarity(a, b) == 1.0
  {
    OverlapBounds(KeywordSet(a), KeywordSet(b));
    OverlapSymmetric(KeywordSet(a), KeywordSet(b));
    if KeywordSet(a) == KeywordSet(b) != {} {
      OverlapEqual(KeywordSet(a));
    }
  }

  /** Two selected papers are linked when their keywords overlap by more
      than 0.2 or they name the same methodology (both naming none counts). */
  predicate Related(a: Paper, b: Paper) {
    Similarity(a, b) > 0.2 || a.methodology == b.methodology
  }

  function MakeEdge(a: Paper, b: Paper): IntraEdge {
    var s := Similarity(a, b);
    IntraEdge(a.id, b.id, s, if s > 0.5 then Strong else Weak)
  }

  /** The pairs i < j are walked row by row, as the nested loops do.  The
      walk is stated for any relation `rel` and edge builder `mk`. */

  /** The edge, if any, between `data[i]` and `data[k]`. */
  function EdgeFor<T, E>(data: seq<T>, rel: (T, T) -> bool, mk: (T, T) -> E, i: nat, k: nat): seq<E>
    requires i < |data| && k < |data|
  {
    if rel(data[i], data[k]) then [mk(data[i], data[k])] else []
  }

  /** The edges from `data[i]` to `data[i + 1 .. j - 1]`, in order. */
  function RowEdges<T, E>(data: seq<T>, rel: (T, T) -> bool, mk: (T, T) -> E, i: nat, j: nat): (r: seq<E>)
    requires i < |data| && j <= |data|
    ensures |r| <= if j > i then j - i - 1 else 0
    decreases j
  {
    if j <= i + 1 then [] else RowEdges(data, rel, mk, i, j - 1) + EdgeFor(data, rel, mk, i, j - 1)
  }

  /** The edges found by the first `i` rounds of the outer loop. */
  function EdgesBefore<T, E>(data: seq<T>, rel: (T, T) -> bool, mk: (T, T) -> E, i: nat): seq<E>
    requires i <= |data|
  {
    if i == 0 then [] else EdgesBefore(data, rel, mk, i - 1) + RowEdges(data, rel, mk, i - 1, |data|)
  }

  lemma {:induction false} RowEdgesSound<T, E>(data: seq<T>, rel: (T, T) -> bool, mk: (T, T) -> E, i: nat, j: nat, e: E)
    requires i < |data| && j <= |data| && e in RowEdges(data, rel, mk, i, j)
    ensures exists k :: i < k < j && rel(data[i], data[k]) && e == mk(data[i], data[k])
    decreases j
  {
    if j > i + 1 {
      assert RowEdges(data, rel, mk, i, j) == RowEdges(data, rel, mk, i, j - 1) + EdgeFor(data, rel, mk, i, j - 1);
      if e in RowEdges(data, rel, mk, i, j - 1) {
        RowEdgesSound(data, rel, mk, i, j - 1, e);
      } else {
        assert e in EdgeFor(data, rel, mk, i, j - 1);
      }
    }
  }

  lemma {:induction false} RowEdgesComplete<T, E>(data: seq<T>, rel: (T, T) -> bool, mk: (T, T) -> E, i: nat, j: nat, k: nat)
    requires i < k < j <= |data| && rel(data[i], data[k])
    ensures mk(data[i], data[k]) in RowEdges(data, rel, mk, i, j)
    decreases j
  {
    assert RowEdges(data, rel, mk, i, j) == RowEdges(data, rel, mk, i, j - 1) + EdgeFor(data, rel, mk, i, j - 1);
    if k < j - 1 {
      RowEdgesComplete(data, rel, mk, i, j - 1, k);
    }
  }

  /** `e` is the edge built for the related pair a < b. */
  ghost predicate FromPair<T, E>(data: seq<T>, rel: (T, T) -> bool, mk: (T, T) -> E, a: nat, b: nat, e: E) {
    a < b < |data| && rel(data[a], data[b]) && e == mk(data[a], data[b])
  }

  lemma {:induction false} EdgesBeforeSound<T, E>(data: seq<T>, rel: (T, T) -> bool, mk: (T, T) -> E, i: nat, e: E)
    requires i <= |data| && e in EdgesBefore(data, rel, mk, i)
    ensures exists a: nat, b: nat :: a < i && FromPair(data, rel, mk, a, b, e)
    decreases i, 1
  {
    assert EdgesBefore(data, rel, mk, i) == EdgesBefore(data, rel, mk, i - 1) + RowEdges(data, rel, mk, i - 1, |data|);
    if e in EdgesBefore(data, rel, mk, i - 1) {
      EarlierRowsSound(data, rel, mk, i, e);
    } else {
      LastRowSound(data, rel, mk, i, e);
    }
  }

  /** An edge of the first `i - 1` rows comes from a pair whose first index
      is below `i`. */
  lemma {:induction false} EarlierRowsSound<T, E>(data: seq<T>, rel: (T, T) -> bool, mk: (T, T) -> E, i: nat, e: E)
    requires 0 < i <= |data| && e in EdgesBefore(data, rel, mk, i - 1)
    ensures exists a: nat, b: nat :: a < i && FromPair(data, rel, mk, a, b, e)
    decreases i, 0
  {
    EdgesBeforeSound(data, rel, mk, i - 1, e);
    var a: nat, b: nat :| a < i - 1 && FromPair(data, rel, mk, a, b, e);
    assert a < i && FromPair(data, rel, mk, a, b, e);
  }

  /** An edge of row `i - 1` comes from a pair whose first index is below `i`. */
  lemma LastRowSound<T, E>(data: seq<T>, rel: (T, T) -> bool, mk: (T, T) -> E, i: nat, e: E)
    requires 0 < i <= |data| && e in RowEdges(data, rel, mk, i - 1, |data|)
    ensures exists a: nat, b: nat :: a < i && FromPair(data, rel, mk, a, b, e)
  {
    RowEdgesSound(data, rel, mk, i - 1, |data|, e);
    var k :| i - 1 < k < |data| && rel(data[i - 1], data[k]) && e == mk(data[i - 1], data[k]);
    assert FromPair(data, rel, mk, i - 1, k, e);
  }

  lemma {:induction false} EdgesBeforeComplete<T, E>(data: seq<T>, rel: (T, T) -> bool, mk: (T, T) -> E, i: nat, a: nat, b: nat)
    requires i <= |data| && a < i && a < b < |data| && rel(data[a], data[b])
    ensures mk(data[a], data[b]) in EdgesBefore(data, rel, mk, i)
    decreases i
  {
    var prev, row := EdgesBefore(data, rel, mk, i - 1), RowEdges(data, rel, mk, i - 1, |data|);
    assert EdgesBefore(data, rel, mk, i) == prev + row;
    if a < i - 1 {
      EdgesBeforeComplete(data, rel, mk, i - 1, a, b);
      assert mk(data[a], data[b]) in prev;
    } else {
      RowEdgesComplete(data, rel, mk, a, |data|, b);
      assert mk(data[a], data[b]) in row;
    }
  }

  /** After `i` rounds at most i·(2n − i − 1)/2 edges exist. */
  lemma {:induction false} EdgesBeforeCount<T, E>(data: seq<T>, rel: (T, T) -> bool, mk: (T, T) -> E, i: nat)
    requires i <= |data|
    ensures 2 * |EdgesBefore(data, rel, mk, i)| <= i * (2 * |data| - i - 1)
    decreases i
  {
    if i > 0 {
      EdgesBeforeCount(data, rel, mk, i - 1);
      var n := |data|;
      var prev := EdgesBefore(data, rel, mk, i - 1);
      var row := RowEdges(data, rel, mk, i - 1, n);
      assert |EdgesBefore(data, rel, mk, i)| == |prev| + |row|;
      assert |row| <= n - i;
      assert (i - 1) * (2 * n - (i - 1) - 1) + 2 * (n - i) == i * (2 * n - i - 1);
    }
  }

  /** All edges among the selected papers. */
  function IntraEdges(data: seq<Paper>): seq<IntraEdge> { EdgesBefore(data, Related, MakeEdge, |data|) }

  /** An edge is reported for the pair a < b exactly when the two papers are
      related; it carries their overlap and is strong exactly above 0.5. */
  lemma IntraEdgesSpec(data: seq<Paper>, a: nat, b: nat, e: IntraEdge)
    ensures a < b < |data| && Related(data[a], data[b]) ==> MakeEdge(data[a], data[b]) in IntraEdges(data)
    ensures e in IntraEdges(data) ==>
      (exists a', b' :: 0 <= a' < b' < |data| && Related(data[a'], data[b']) &&
         e.source == data[a'].id && e.target == data[b'].id && e.strength == Similarity(data[a'], data[b'])) &&
      (e.kind == Strong <==> e.strength > 0.5)
  {
    if a < b < |data| && Related(data[a], data[b]) {
      EdgesBeforeComplete(data, Related, MakeEdge, |data|, a, b);
    }
    if e in IntraEdges(data) {
      EdgesBeforeSound(data, Related, MakeEdge, |data|, e);
      var a': nat, b': nat :| a' < |data| && FromPair(data, Related, MakeEdge, a', b', e);
      assert 0 <= a' < b' < |data| && Related(data[a'], data[b']) && e == MakeEdge(data[a'], data[b']);
    }
  }

  /** There are at most k(k − 1)/2 edges among k papers. */
  lemma IntraEdgesCount(data: seq<Paper>)
    ensures 2 * |IntraEdges(data)| <= |data| * (|data| - 1)
  {
    EdgesBeforeCount(data, Related, MakeEdge, |data|);
  }

  /** The papers whose ids are selected, in the order of `papers`. */
  predicate IsSelected(selected: seq<string>, p: Paper) { p.id in selected }

  function SelectedData(papers: seq<Paper>, selected: seq<string>): seq<Paper> {
    Filter(papers, p => IsSelected(selected, p))
  }

  /** The body of the inner loop: link `data[i]` and `data[j]` when related. */
  /** One pass of the inner loop: the edge between `data[i]` and `data[j]`,
      if the two are related, goes at the end.  `start` is what the list
      held before row `i` began. */
  method ConsiderPair<T, E>(data: seq<T>, rel: (T, T) -> bool, mk: (T, T) -> E, i: nat, j: nat, edges0: seq<E>,
                            ghost start: seq<E>)
    returns (edges: seq<E>)
    requires i < j < |data| && edges0 == start + RowEdges(data, rel, mk, i, j)
    ensures edges == edges0 + EdgeFor(data, rel, mk, i, j)
    ensures edges == start + RowEdges(data, rel, mk, i, j + 1)
  {
    edges := edges0;
    if rel(data[i], data[j]) {
      edges := edges + [mk(data[i], data[j])];
    }
    assert RowEdges(data, rel, mk, i, j + 1) == RowEdges(data, rel, mk, i, j) + EdgeFor(data, rel, mk, i, j);
    AppendAssoc(start, RowEdges(data, rel, mk, i, j), EdgeFor(data, rel, mk, i, j));
  }

  /** The inner loop of `generateIntraPaperRelations`: row `i` of the pairs. */
  method ScanRow<T, E>(data: seq<T>, rel: (T, T) -> bool, mk: (T, T) -> E, i: nat, edges0: seq<E>)
    returns (edges: seq<E>)
    requires i < |data|
    ensures edges == edges0 + RowEdges(data, rel, mk, i, |data|)
  {
    edges := edges0;
    var j := i + 1;
    assert RowEdges(data, rel, mk, i, j) == [];
    while j < |data|
      invariant i + 1 <= j <= |data|
      invariant edges == edges0 + RowEdges(data, rel, mk, i, j)
    {
      edges := ConsiderPair(data, rel, mk, i, j, edges, edges0);
      j := j + 1;
    }
    assert j == |data|;
  }

  /** The nested loops of `generateIntraPaperRelations`, for the relation
      and edge builder it is given. */
  method CollectEdges<T, E>(data: seq<T>, rel: (T, T) -> bool, mk: (T, T) -> E) returns (edges: seq<E>)
    ensures edges == EdgesBefore(data, rel, mk, |data|)
  {
    edges := [];
    var i := 0;
    while i < |data|
      invariant 0 <= i <= |data|
      invariant edges == EdgesBefore(data, rel, mk, i)
    {
      edges := ScanRow(data, rel, mk, i, edges);
      i := i + 1;
    }
  }

  /** `generateIntraPaperRelations`: nothing until two papers are ticked;
      then one node per ticked paper, in the order of `papers`, and the
      edges among them. */
  method GenerateIntraPaperRelations(papers: seq<Paper>, selected: seq<string>)
    returns (nodes: seq<IntraNode>, edges: seq<IntraEdge>)
    ensures |selected| < 2 ==> nodes == [] && edges == []
    ensures |selected| >= 2 ==>
      nodes == NodesFrom(SelectedData(papers, selected), 0) && edges == IntraEdges(SelectedData(papers, selected))
  {
    if |selected| < 2 {
      return [], [];
    }
    var data := SelectedData(papers, selected);
    nodes := NodesFrom(data, 0);
    edges := CollectEdges(data, Related, MakeEdge);
  }

  /** The nodes are exactly the ticked papers and keep the order of `papers`. */
  lemma SelectedDataSpec(papers: seq<Paper>, selected: seq<string>, p: Paper)
    ensures p in SelectedData(papers, selected) <==> p in papers && p.id in selected
    ensures forall k :: 0 <= k < |SelectedData(papers, selected)| ==>
      NodesFrom(SelectedData(papers, selected), 0)[k].id == SelectedData(papers, selected)[k].id
  {
    FilterMembership(papers, p => IsSelected(selected, p), p);
  }

  /** `togglePaperSelection`. */
  function TogglePaperSelection(selected: seq<string>, paperId: string): seq<string> {
    AppStore.Toggle(selected, paperId)
  }

  /** A node of the graph fetched from the server. */
  datatype GraphNode = GraphNode(id: string, kind: string, caption: string)
  datatype GraphEdge = GraphEdge(source: string, target: string)
  datatype GraphData = GraphData(nodes: seq<GraphNode>, edges: seq<GraphEdge>)

  datatype ViewMode = ResearchAreas | Methodologies | Papers

  /** The node type each view shows. */
  function ViewKind(mode: ViewMode): string {
    match mode
    case ResearchAreas => "research_area"
    case Methodologies => "methodology"
    case Papers => "paper"
  }

  predicate OfKind(kind: string, n: GraphNode) { n.kind == kind }

  /** `getFilteredNodes`. */
  function FilteredNodes(graph: Option<GraphData>, mode: ViewMode): seq<GraphNode> {
    match graph
    case None => []
    case Some(g) => Filter(g.nodes, n => OfKind(ViewKind(mode), n))
  }

  function NodeIds(nodes: seq<GraphNode>): set<string> { set n | n in nodes :: n.id }

  predicate Connects(ids: set<string>, e: GraphEdge) { e.source in ids && e.target in ids }

  /** `getFilteredEdges`. */
  function FilteredEdges(graph: Option<GraphData>, mode: ViewMode): seq<GraphEdge> {
    match graph
    case None => []
    case Some(g) => Filter(g.edges, e => Connects(NodeIds(FilteredNodes(graph, mode)), e))
  }

  /** A view shows exactly the nodes of its type, keeping their order, and
      exactly the edges both of whose ends are among them. */
  lemma FilteredSpec(graph: Option<GraphData>, mode: ViewMode, n: GraphNode, e: GraphEdge)
    ensures graph.None? ==> FilteredNodes(graph, mode) == [] && FilteredEdges(graph, mode) == []
    ensures graph.Some? ==> (n in FilteredNodes(graph, mode) <==> n in graph.value.nodes && n.kind == ViewKind(mode))
    ensures graph.Some? ==> (e in FilteredEdges(graph, mode) <==>
      e in graph.value.edges &&
      (exists a :: a in FilteredNodes(graph, mode) && a.id == e.source) &&
      (exists b :: b in FilteredNodes(graph, mode) && b.id == e.target))
  {
    if graph.Some? {
      var g := graph.value;
      FilterMembership(g.nodes, n => OfKind(ViewKind(mode), n), n);
      var ids := NodeIds(FilteredNodes(graph, mode));
      FilterMembership(g.edges, e => Connects(ids, e), e);
    }
  }

  /** `getTopPapers` with the ranking score given: at most four papers,
      best first.  The score combines citations with the logarithm of the
      funding, which is not modelled. */
  function TopPapers(papers: seq<Paper>, score: Paper -> real): seq<Paper> {
    Take(SortBy(papers, (a: Paper, b: Paper) => score(a) >= score(b)), 4)
  }

  lemma TopPapersSpec(papers: seq<Paper>, score: Paper -> real)
    ensures |TopPapers(papers, score)| == IntMin(4, |papers|)
    ensures multiset(TopPapers(papers, score)) <= multiset(papers)
    ensures forall k :: 0 <= k < |TopPapers(papers, score)| ==> TopPapers(papers, score)[k] in papers
    ensures SortedBy(TopPapers(papers, score), (a: Paper, b: Paper) => score(a) >= score(b))
  {
    var ge := (a: Paper, b: Paper) => score(a) >= score(b);
    assert TotalPreorder(ge);
    TopOf(papers, ge, 4);
  }

  /** The top four: a paper left out scores no higher than any paper
      shown. */
  lemma TopPapersMaximal(papers: seq<Paper>, score: Paper -> real, x: Paper)
    requires x in papers && x !in TopPapers(papers, score)
    ensures forall k :: 0 <= k < |TopPapers(papers, score)| ==> score(TopPapers(papers, score)[k]) >= score(x)
  {
    var ge := (a: Paper, b: Paper) => score(a) >= score(b);
    var sorted := SortBy(papers, ge);
    assert SortedBy(sorted, ge) by {
      assert TotalPreorder(ge);
      SortBySorted(papers, ge);
    }
    PrefixMaximal(papers, sorted, TopPapers(papers, score), ge, x);
  }

  /** The ranking order of `getTopPapers`: the higher score first. */
  function ByScore(score: Paper -> real): (Paper, Paper) -> bool {
    (a: Paper, b: Paper) => score(a) >= score(b)
  }

  /** One render of the component: `getTopPapers` sorts the `papers` prop
      in place, so the relation data built after it in the same render
      reads the papers in score order. */
  method Render(papers: seq<Paper>, selected: seq<string>, score: Paper -> real)
    returns (top: seq<Paper>, nodes: seq<IntraNode>, edges: seq<IntraEdge>)
    ensures top == TopPapers(papers, score)
    ensures var data := SelectedData(SortBy(papers, ByScore(score)), selected);
      (|selected| < 2 ==> nodes == [] && edges == []) &&
      (|selected| >= 2 ==> nodes == NodesFrom(data, 0) && edges == IntraEdges(data))
  {
    var sorted := SortBy(papers, ByScore(score));
    top := TopPapers(papers, score);
    nodes, edges := GenerateIntraPaperRelations(sorted, selected);
  }

  /** After that sort, the ticked papers are exactly the ticked papers of
      the prop, now best score first. */
  lemma RenderedSelectionSpec(papers: seq<Paper>, selected: seq<string>, score: Paper -> real, p: Paper)
    ensures var data := SelectedData(SortBy(papers, ByScore(score)), selected);
      SortedBy(data, ByScore(score)) && (p in data <==> p in papers && p.id in selected)
  {
    var ge := ByScore(score);
    var sorted := SortBy(papers, ge);
    assert TotalPreorder(ge);
    SortBySorted(papers, ge);
    FilterSorted(sorted, q => IsSelected(selected, q), ge);
    FilterMembership(sorted, q => IsSelected(selected, q), p);
    assert p in sorted <==> p in multiset(sorted);
  }
}
