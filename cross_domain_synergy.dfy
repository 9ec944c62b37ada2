/** `CrossDomainSynergyAgent` (cross_domain_synergy_agent.py): pairs of
    projects from different, sufficiently large research domains whose text
    similarity reaches a threshold, and the domain network, heatmap and
    per-domain statistics built from them. */
module CrossDomainSynergy {
  import opened Wrappers
  import opened Numeric
  import opened Sorting
  import opened SimGraph
  import opened CrossDomainText
  import PairRanking

  // ---------------------------------------------------------------------
  // Domains and the pairs that qualify

  /** A domain listed by `value_counts` with at least `minSize` projects. */
  predicate IsValidDomain(mapping: seq<string>, minSize: int, d: string) {
    d in mapping && Occurrences(mapping, d) >= minSize
  }

  /** The two projects lie in different valid domains. */
  predicate CrossValid(mapping: seq<string>, minSize: int, p: (nat, nat)) {
    p.0 < |mapping| && p.1 < |mapping| && mapping[p.0] != mapping[p.1] &&
    IsValidDomain(mapping, minSize, mapping[p.0]) && IsValidDomain(mapping, minSize, mapping[p.1])
  }

  /** The pairs of `ps` that pass the cross-domain test, in order. */
  function CrossPairs(mapping: seq<string>, minSize: int, ps: seq<(nat, nat)>): (r: seq<(nat, nat)>)
  {
    if ps == [] then []
    else (if CrossValid(mapping, minSize, ps[0]) then [ps[0]] else []) + CrossPairs(mapping, minSize, ps[1..])
  }

  lemma {:induction false} CrossPairsMembership(mapping: seq<string>, minSize: int, ps: seq<(nat, nat)>, p: (nat, nat))
    ensures p in CrossPairs(mapping, minSize, ps) <==> p in ps && CrossValid(mapping, minSize, p)
  {
    if ps != [] {
      CrossPairsMembership(mapping, minSize, ps[1..], p);
      assert ps == [ps[0]] + ps[1..];
    }
  }

  lemma {:induction false} CrossPairsAppend(mapping: seq<string>, minSize: int, a: seq<(nat, nat)>, b: seq<(nat, nat)>)
    ensures CrossPairs(mapping, minSize, a + b) == CrossPairs(mapping, minSize, a) + CrossPairs(mapping, minSize, b)
  {
    if a != [] {
      CrossPairsAppend(mapping, minSize, a[1..], b);
      var h := if CrossValid(mapping, minSize, a[0]) then [a[0]] else [];
      assert (a + b)[0] == a[0];
      assert (a + b)[1..] == a[1..] + b;
      assert CrossPairs(mapping, minSize, a + b) == h + CrossPairs(mapping, minSize, a[1..] + b);
      assert CrossPairs(mapping, minSize, a) == h + CrossPairs(mapping, minSize, a[1..]);
    } else {
      assert a + b == b;
    }
  }

  lemma CrossPairsValid(m: Matrix, mapping: seq<string>, minSize: int, ps: seq<(nat, nat)>)
    requires PairRanking.ValidPairs(m, ps)
    ensures PairRanking.ValidPairs(m, CrossPairs(mapping, minSize, ps))
  {
    var r := CrossPairs(mapping, minSize, ps);
    forall k | 0 <= k < |r| ensures r[k].0 < r[k].1 < |m| {
      CrossPairsMembership(mapping, minSize, ps, r[k]);
      var i :| 0 <= i < |ps| && ps[i] == r[k];
    }
  }

  // ---------------------------------------------------------------------
  // Synergy rows

  /** One row of `synergy_pairs`. */
  datatype Synergy = Synergy(indexA: nat, titleA: Cell, domainA: string,
                             indexB: nat, titleB: Cell, domainB: string, score: real)

  predicate Sized(m: Matrix, rows: seq<Row>, mapping: seq<string>) {
    IsSquare(m) && |rows| == |m| && |mapping| == |m|
  }

  function MakeSynergy(m: Matrix, rows: seq<Row>, mapping: seq<string>, p: (nat, nat)): (s: Synergy)
    requires Sized(m, rows, mapping) && p.0 < p.1 < |m|
    ensures s.indexA == p.0 && s.indexB == p.1 && s.score == m[p.0][p.1]
    ensures s.domainA == mapping[p.0] && s.domainB == mapping[p.1]
  {
    Synergy(p.0, rows[p.0].title, mapping[p.0], p.1, rows[p.1].title, mapping[p.1], m[p.0][p.1])
  }

  function Records(m: Matrix, rows: seq<Row>, mapping: seq<string>, ps: seq<(nat, nat)>): (rs: seq<Synergy>)
    requires Sized(m, rows, mapping) && PairRanking.ValidPairs(m, ps)
    ensures |rs| == |ps|
  {
    if ps == [] then [] else [MakeSynergy(m, rows, mapping, ps[0])] + Records(m, rows, mapping, ps[1..])
  }

  lemma {:induction false} RecordsIndex(m: Matrix, rows: seq<Row>, mapping: seq<string>, ps: seq<(nat, nat)>, k: nat)
    requires Sized(m, rows, mapping) && PairRanking.ValidPairs(m, ps) && k < |ps|
    ensures Records(m, rows, mapping, ps)[k] == MakeSynergy(m, rows, mapping, ps[k])
  {
    if k > 0 {
      RecordsIndex(m, rows, mapping, ps[1..], k - 1);
    }
  }

  lemma {:induction false} RecordsAppend(m: Matrix, rows: seq<Row>, mapping: seq<string>, a: seq<(nat, nat)>, b: seq<(nat, nat)>)
    requires Sized(m, rows, mapping) && PairRanking.ValidPairs(m, a) && PairRanking.ValidPairs(m, b)
    ensures PairRanking.ValidPairs(m, a + b)
    ensures Records(m, rows, mapping, a + b) == Records(m, rows, mapping, a) + Records(m, rows, mapping, b)
  {
    forall k | 0 <= k < |a + b| ensures (a + b)[k].0 < (a + b)[k].1 < |m| {
      if k < |a| { assert (a + b)[k] == a[k]; } else { assert (a + b)[k] == b[k - |a|]; }
    }
    if a == [] {
      assert a + b == b;
    } else {
      assert (a + b)[1..] == a[1..] + b;
      RecordsAppend(m, rows, mapping, a[1..], b);
      assert (a + b)[0] == a[0];
    }
  }

  function SynergyGe(a: Synergy, b: Synergy): bool { a.score >= b.score }

  lemma SynergyGeTotal()
    ensures TotalPreorder(SynergyGe)
  {
  }

  /** The qualifying pairs in loop order. */
  function QualifyingPairs(m: Matrix, mapping: seq<string>, t: real, minSize: int): seq<(nat, nat)> {
    CrossPairs(mapping, minSize, CandidatePairs(m, t))
  }

  /** `find_cross_domain_synergies`: the qualifying pairs, then
      `sort_values('Similarity_Score', ascending=False)`. */
  function Synergies(m: Matrix, rows: seq<Row>, mapping: seq<string>, t: real, minSize: int): seq<Synergy>
    requires Sized(m, rows, mapping)
  {
    PairRanking.CandidatePairsValid(m, t);
    CrossPairsValid(m, mapping, minSize, CandidatePairs(m, t));
    SortBy(Records(m, rows, mapping, QualifyingPairs(m, mapping, t, minSize)), SynergyGe)
  }

  /** The synergy rows are sorted by score, highest first. */
  lemma SynergiesSorted(m: Matrix, rows: seq<Row>, mapping: seq<string>, t: real, minSize: int)
    requires Sized(m, rows, mapping)
    ensures SortedBy(Synergies(m, rows, mapping, t, minSize), SynergyGe)
  {
    PairRanking.CandidatePairsValid(m, t);
    CrossPairsValid(m, mapping, minSize, CandidatePairs(m, t));
    SynergyGeTotal();
    SortBySorted(Records(m, rows, mapping, QualifyingPairs(m, mapping, t, minSize)), SynergyGe);
  }

  /** Every synergy row describes a pair above the threshold whose projects
      lie in different valid domains. */
  lemma SynergyShape(m: Matrix, rows: seq<Row>, mapping: seq<string>, t: real, minSize: int, s: Synergy)
    requires Sized(m, rows, mapping) && s in Synergies(m, rows, mapping, t, minSize)
    ensures Above(m, t, s.indexA, s.indexB) && CrossValid(mapping, minSize, (s.indexA, s.indexB))
    ensures s == MakeSynergy(m, rows, mapping, (s.indexA, s.indexB))
  {
    PairRanking.CandidatePairsValid(m, t);
    var cand := CandidatePairs(m, t);
    CrossPairsValid(m, mapping, minSize, cand);
    var ps := QualifyingPairs(m, mapping, t, minSize);
    var recs := Records(m, rows, mapping, ps);
    assert s in multiset(recs);
    var k :| 0 <= k < |recs| && recs[k] == s;
    RecordsIndex(m, rows, mapping, ps, k);
    CrossPairsMembership(mapping, minSize, cand, ps[k]);
    CandidatePairsExact(m, t, ps[k].0, ps[k].1);
  }

  /** The pair (i, j) is reported exactly when i < j, sim[i][j] reaches the
      threshold and the two projects lie in different valid domains. */
  lemma SynergiesExact(m: Matrix, rows: seq<Row>, mapping: seq<string>, t: real, minSize: int, i: nat, j: nat)
    requires Sized(m, rows, mapping)
    ensures (exists s :: s in Synergies(m, rows, mapping, t, minSize) && s.indexA == i && s.indexB == j) <==>
      Above(m, t, i, j) && CrossValid(mapping, minSize, (i, j))
  {
    if s :| s in Synergies(m, rows, mapping, t, minSize) && s.indexA == i && s.indexB == j {
      SynergyShape(m, rows, mapping, t, minSize, s);
    }
    if Above(m, t, i, j) && CrossValid(mapping, minSize, (i, j)) {
      PairRanking.CandidatePairsValid(m, t);
      var cand := CandidatePairs(m, t);
      CrossPairsValid(m, mapping, minSize, cand);
      CandidatePairsExact(m, t, i, j);
      CrossPairsMembership(mapping, minSize, cand, (i, j));
      var ps := QualifyingPairs(m, mapping, t, minSize);
      var k :| 0 <= k < |ps| && ps[k] == (i, j);
      var recs := Records(m, rows, mapping, ps);
      RecordsIndex(m, rows, mapping, ps, k);
      assert recs[k] in multiset(Synergies(m, rows, mapping, t, minSize));
    }
  }

  /** The rows the inner loop has appended for row i after columns up to j. */
  function RowSynergies(m: Matrix, rows: seq<Row>, mapping: seq<string>, t: real, minSize: int, i: nat, j: nat): seq<Synergy>
    requires Sized(m, rows, mapping) && j <= |m|
    decreases j
  {
    if j <= i + 1 then []
    else
      var k := j - 1;
      var cell := if m[i][k] >= t && CrossValid(mapping, minSize, (i, k)) then [MakeSynergy(m, rows, mapping, (i, k))] else [];
      RowSynergies(m, rows, mapping, t, minSize, i, k) + cell
  }

  /** The row's synergies are the records of its qualifying pairs. */
  lemma {:induction false} RowSynergiesRecords(m: Matrix, rows: seq<Row>, mapping: seq<string>, t: real, minSize: int, i: nat, j: nat)
    requires Sized(m, rows, mapping) && j <= |m|
    ensures PairRanking.ValidPairs(m, CrossPairs(mapping, minSize, RowPairs(m, t, i, j)))
    ensures RowSynergies(m, rows, mapping, t, minSize, i, j) ==
      Records(m, rows, mapping, CrossPairs(mapping, minSize, RowPairs(m, t, i, j)))
    decreases j
  {
    PairRanking.RowPairsValid(m, t, i, j);
    CrossPairsValid(m, mapping, minSize, RowPairs(m, t, i, j));
    if j > i + 1 {
      var k := j - 1;
      var cell := if m[i][k] >= t && CrossValid(mapping, minSize, (i, k)) then [MakeSynergy(m, rows, mapping, (i, k))] else [];
      assert RowSynergies(m, rows, mapping, t, minSize, i, j) == RowSynergies(m, rows, mapping, t, minSize, i, k) + cell;
      RowSynergiesRecords(m, rows, mapping, t, minSize, i, k);
      RowRecordsStep(m, rows, mapping, t, minSize, i, j);
    } else {
      assert RowPairs(m, t, i, j) == [];
    }
  }

  /** Column j - 1 adds at most its own record to the row's records. */
  lemma RowRecordsStep(m: Matrix, rows: seq<Row>, mapping: seq<string>, t: real, minSize: int, i: nat, j: nat)
    requires Sized(m, rows, mapping) && i + 1 < j <= |m|
    ensures PairRanking.ValidPairs(m, CrossPairs(mapping, minSize, RowPairs(m, t, i, j - 1)))
    ensures PairRanking.ValidPairs(m, CrossPairs(mapping, minSize, RowPairs(m, t, i, j)))
    ensures Records(m, rows, mapping, CrossPairs(mapping, minSize, RowPairs(m, t, i, j))) ==
      Records(m, rows, mapping, CrossPairs(mapping, minSize, RowPairs(m, t, i, j - 1))) +
      (if m[i][j - 1] >= t && CrossValid(mapping, minSize, (i, j - 1)) then [MakeSynergy(m, rows, mapping, (i, j - 1))] else [])
  {
    var k := j - 1;
    var tail: seq<(nat, nat)> := if Above(m, t, i, k) then [(i, k)] else [];
    var before := RowPairs(m, t, i, k);
    assert RowPairs(m, t, i, j) == before + tail;
    PairRanking.RowPairsValid(m, t, i, k);
    PairRanking.RowPairsValid(m, t, i, j);
    CrossPairsAppend(mapping, minSize, before, tail);
    CrossPairsValid(m, mapping, minSize, before);
    CrossPairsValid(m, mapping, minSize, before + tail);
    var c := CrossPairs(mapping, minSize, tail);
    assert c == if m[i][k] >= t && CrossValid(mapping, minSize, (i, k)) then [(i, k)] else [];
    var cb := CrossPairs(mapping, minSize, before);
    RecordsAppend(m, rows, mapping, cb, c);
    assert Records(m, rows, mapping, c) ==
      if m[i][k] >= t && CrossValid(mapping, minSize, (i, k)) then [MakeSynergy(m, rows, mapping, (i, k))] else [];
  }

  /** The rows the outer loop has appended before row i. */
  function SynergiesBefore(m: Matrix, rows: seq<Row>, mapping: seq<string>, t: real, minSize: int, i: nat): seq<Synergy>
    requires Sized(m, rows, mapping) && i <= |m|
  {
    PairRanking.PairsBeforeValid(m, t, i);
    CrossPairsValid(m, mapping, minSize, PairsBefore(m, t, i));
    Records(m, rows, mapping, CrossPairs(mapping, minSize, PairsBefore(m, t, i)))
  }

  lemma SynergiesBeforeStep(m: Matrix, rows: seq<Row>, mapping: seq<string>, t: real, minSize: int, i: nat)
    requires Sized(m, rows, mapping) && i < |m|
    ensures SynergiesBefore(m, rows, mapping, t, minSize, i + 1) ==
      SynergiesBefore(m, rows, mapping, t, minSize, i) + RowSynergies(m, rows, mapping, t, minSize, i, |m|)
  {
    PairRanking.PairsBeforeValid(m, t, i);
    PairRanking.RowPairsValid(m, t, i, |m|);
    RowSynergiesRecords(m, rows, mapping, t, minSize, i, |m|);
    CrossPairsAppend(mapping, minSize, PairsBefore(m, t, i), RowPairs(m, t, i, |m|));
    CrossPairsValid(m, mapping, minSize, PairsBefore(m, t, i));
    CrossPairsValid(m, mapping, minSize, RowPairs(m, t, i, |m|));
    RecordsAppend(m, rows, mapping, CrossPairs(mapping, minSize, PairsBefore(m, t, i)),
                  CrossPairs(mapping, minSize, RowPairs(m, t, i, |m|)));
  }

  /** Without a pair above the threshold there is no synergy. */
  lemma NoCandidatesNoSynergies(m: Matrix, rows: seq<Row>, mapping: seq<string>, t: real, minSize: int)
    requires Sized(m, rows, mapping) && CandidatePairs(m, t) == []
    ensures Synergies(m, rows, mapping, t, minSize) == []
  {
    assert QualifyingPairs(m, mapping, t, minSize) == [];
    var recs := Records(m, rows, mapping, []);
    assert |SortBy(recs, SynergyGe)| == |recs|;
  }

  /** The inner loop `for j in range(i + 1, len(df))`; `valid` is the set of
      valid domains the code builds first. */
  method ScanRow(m: Matrix, rows: seq<Row>, mapping: seq<string>, t: real, minSize: int,
                 valid: set<string>, i: nat) returns (row: seq<Synergy>)
    requires Sized(m, rows, mapping) && i < |m|
    requires IsValidSet(valid, mapping, minSize)
    ensures row == RowSynergies(m, rows, mapping, t, minSize, i, |m|)
  {
    var n := |m|;
    row := [];
    var j := i + 1;
    while j < n
      invariant i + 1 <= j <= n
      invariant row == RowSynergies(m, rows, mapping, t, minSize, i, j)
    {
      row := ScanCell(m, rows, mapping, t, minSize, valid, i, j, row);
      j := j + 1;
    }
    assert j == n;
  }

  /** One iteration of the inner loop: the pair (i, j) is appended when it
      reaches the threshold and joins two different valid domains. */
  method ScanCell(m: Matrix, rows: seq<Row>, mapping: seq<string>, t: real, minSize: int,
                  valid: set<string>, i: nat, j: nat, row0: seq<Synergy>) returns (row: seq<Synergy>)
    requires Sized(m, rows, mapping) && i < j < |m|
    requires IsValidSet(valid, mapping, minSize)
    requires row0 == RowSynergies(m, rows, mapping, t, minSize, i, j)
    ensures row == RowSynergies(m, rows, mapping, t, minSize, i, j + 1)
  {
    var di, dj := mapping[i], mapping[j];
    ValidDomainSetMember(mapping, minSize, di);
    ValidDomainSetMember(mapping, minSize, dj);
    var hit := m[i][j] >= t && di != dj && di in valid && dj in valid;
    assert hit == (m[i][j] >= t && CrossValid(mapping, minSize, (i, j)));
    row := row0;
    if hit {
      row := row + [MakeSynergy(m, rows, mapping, (i, j))];
    }
  }

  /** The nested loops of `find_cross_domain_synergies` followed by the sort. */
  method CollectSynergies(m: Matrix, rows: seq<Row>, mapping: seq<string>, t: real, minSize: int)
    returns (pairs: seq<Synergy>)
    requires Sized(m, rows, mapping)
    ensures pairs == Synergies(m, rows, mapping, t, minSize)
  {
    var valid := ValidDomainSet(mapping, minSize);
    var n := |m|;
    var raw: seq<Synergy> := [];
    var i := 0;
    while i < n
      invariant 0 <= i <= n
      invariant raw == SynergiesBefore(m, rows, mapping, t, minSize, i)
    {
      var row := ScanRow(m, rows, mapping, t, minSize, valid, i);
      SynergiesBeforeStep(m, rows, mapping, t, minSize, i);
      raw := raw + row;
      i := i + 1;
    }
    assert i == n;
    pairs := SortBy(raw, SynergyGe);
  }

  // ---------------------------------------------------------------------
  // create_domain_network

  /** An edge of the domain network. */
  datatype Edge = Edge(weight: real, count: nat)

  /** The unordered domain pair of a synergy. */
  function Key(s: Synergy): set<string> { {s.domainA, s.domainB} }

  /** One iteration of the edge loop: a running average and a count. */
  function AddEdge(g: map<set<string>, Edge>, s: Synergy): map<set<string>, Edge> {
    var k := Key(s);
    if k in g then g[k := Edge((g[k].weight + s.score) / 2.0, g[k].count + 1)]
    else g[k := Edge(s.score, 1)]
  }

  /** The edges after visiting `ps` in order. */
  function Network(ps: seq<Synergy>): map<set<string>, Edge>
    decreases |ps|
  {
    if ps == [] then map[] else AddEdge(Network(ps[..|ps| - 1]), ps[|ps| - 1])
  }

  /** The scores of the pairs of `ps` that join the domains of `k`, in order. */
  function ScoresFor(ps: seq<Synergy>, k: set<string>): (r: seq<real>)
    ensures |r| <= |ps|
    decreases |ps|
  {
    if ps == [] then []
    else ScoresFor(ps[..|ps| - 1], k) + (if Key(ps[|ps| - 1]) == k then [ps[|ps| - 1].score] else [])
  }

  /** The network has an edge for exactly the domain pairs that occur; its
      count is the number of pairs joining them and its weight lies between
      the smallest and the largest of their scores. */
  lemma {:induction false} NetworkSpec(ps: seq<Synergy>, k: set<string>)
    ensures k in Network(ps) <==> ScoresFor(ps, k) != []
    ensures k in Network(ps) ==>
      var sc := ScoresFor(ps, k);
      Network(ps)[k].count == |sc| &&
      exists i, j :: 0 <= i < |sc| && 0 <= j < |sc| && sc[i] <= Network(ps)[k].weight <= sc[j]
    decreases |ps|
  {
    if ps != [] {
      var init, last := ps[..|ps| - 1], ps[|ps| - 1];
      NetworkSpec(init, k);
      var old_sc, sc := ScoresFor(init, k), ScoresFor(ps, k);
      var g := Network(init);
      if Key(last) == k {
        assert sc == old_sc + [last.score];
        var w := Network(ps)[k].weight;
        if k in g {
          var i, j :| 0 <= i < |old_sc| && 0 <= j < |old_sc| && old_sc[i] <= g[k].weight <= old_sc[j];
          assert w == (g[k].weight + last.score) / 2.0;
          assert sc[i] == old_sc[i] && sc[j] == old_sc[j] && sc[|old_sc|] == last.score;
          var lo := if old_sc[i] <= last.score then i else |old_sc|;
          var hi := if old_sc[j] >= last.score then j else |old_sc|;
          assert sc[lo] <= w <= sc[hi];
        } else {
          assert old_sc == [];
          assert sc[0] <= w <= sc[0];
        }
      } else {
        assert sc == old_sc;
        if k in g {
          assert Network(ps)[k] == g[k];
        }
      }
    }
  }

  /** `G.add_node` for every domain with at least `minSize` projects. */
  function ValidDomainSet(mapping: seq<string>, minSize: int): set<string> {
    set d | d in mapping && Occurrences(mapping, d) >= minSize
  }

  /** `valid` is the set of valid domains. */
  predicate IsValidSet(valid: set<string>, mapping: seq<string>, minSize: int) {
    valid == ValidDomainSet(mapping, minSize)
  }

  lemma ValidDomainSetMember(mapping: seq<string>, minSize: int, d: string)
    ensures d in ValidDomainSet(mapping, minSize) <==> IsValidDomain(mapping, minSize, d)
  {
  }

  /** The edges only join network nodes, so `add_edge` adds no node. */
  lemma NetworkWithinNodes(ps: seq<Synergy>, mapping: seq<string>, minSize: int, k: set<string>)
    requires forall s :: s in ps ==> IsValidDomain(mapping, minSize, s.domainA) && IsValidDomain(mapping, minSize, s.domainB)
    requires k in Network(ps)
    ensures k <= ValidDomainSet(mapping, minSize)
  {
    NetworkSpec(ps, k);
    ScoresForKey(ps, k);
  }

  lemma {:induction false} ScoresForKey(ps: seq<Synergy>, k: set<string>)
    requires ScoresFor(ps, k) != []
    ensures exists s :: s in ps && Key(s) == k
    decreases |ps|
  {
    var init, last := ps[..|ps| - 1], ps[|ps| - 1];
    if Key(last) != k {
      ScoresForKey(init, k);
      var s :| s in init && Key(s) == k;
      assert s in ps;
    }
  }

  /** The edge loop over the top pairs. */
  method BuildNetwork(top: seq<Synergy>) returns (edges: map<set<string>, Edge>)
    ensures edges == Network(top)
  {
    edges := map[];
    var i := 0;
    while i < |top|
      invariant 0 <= i <= |top|
      invariant edges == Network(top[..i])
    {
      assert top[..i + 1][..i] == top[..i];
      var s := top[i];
      var k := {s.domainA, s.domainB};
      if k in edges {
        edges := edges[k := Edge((edges[k].weight + s.score) / 2.0, edges[k].count + 1)];
      } else {
        edges := edges[k := Edge(s.score, 1)];
      }
      i := i + 1;
    }
    assert i == |top|;
    assert top[..|top|] == top;
  }

  // ---------------------------------------------------------------------
  // create_synergy_heatmap

  /** The score the last pair joining `a` and `b` wrote, 0 if none. */
  function LastScore(ps: seq<Synergy>, a: string, b: string): real
    decreases |ps|
  {
    if ps == [] then 0.0
    else if Key(ps[|ps| - 1]) == {a, b} then ps[|ps| - 1].score
    else LastScore(ps[..|ps| - 1], a, b)
  }

  /** A heatmap cell: zero on the diagonal, else the last score written. */
  function HeatCell(ps: seq<Synergy>, a: string, b: string): real {
    if a == b then 0.0 else LastScore(ps, a, b)
  }

  lemma {:induction false} HeatSymmetric(ps: seq<Synergy>, a: string, b: string)
    ensures HeatCell(ps, a, b) == HeatCell(ps, b, a)
    decreases |ps|
  {
    assert {a, b} == {b, a};
    if ps != [] {
      HeatSymmetric(ps[..|ps| - 1], a, b);
    }
  }

  /** Because the rows are sorted by score, highest first, a cell holds the
      smallest score among the pairs of its two domains. */
  lemma {:induction false} HeatCellIsMinimum(ps: seq<Synergy>, a: string, b: string)
    requires SortedBy(ps, SynergyGe) && a != b
    requires exists s :: s in ps && Key(s) == {a, b}
    ensures exists s :: s in ps && Key(s) == {a, b} && HeatCell(ps, a, b) == s.score
    ensures forall s :: s in ps && Key(s) == {a, b} ==> HeatCell(ps, a, b) <= s.score
    decreases |ps|
  {
    var init, last := ps[..|ps| - 1], ps[|ps| - 1];
    assert ps == init + [last];
    SortedFront(ps, SynergyGe);
    if Key(last) == {a, b} {
      forall s | s in ps && Key(s) == {a, b} ensures last.score <= s.score {
        var k :| 0 <= k < |ps| && ps[k] == s;
        if k < |ps| - 1 { assert SynergyGe(ps[k], last); }
      }
    } else {
      var w :| w in ps && Key(w) == {a, b};
      assert w in init;
      HeatCellIsMinimum(init, a, b);
      assert HeatCell(ps, a, b) == HeatCell(init, a, b);
    }
  }

  /** What the heatmap loop keeps after the first i rows. */
  ghost predicate HeatFilled(domains: set<string>, ps: seq<Synergy>, i: nat, cells: map<(string, string), real>)
    requires i <= |ps|
  {
    (forall a, b :: a in domains && b in domains <==> (a, b) in cells) &&
    forall a, b :: a in domains && b in domains && a != b ==> cells[(a, b)] == LastScore(ps[..i], a, b)
  }

  lemma LastScoreSnoc(ps: seq<Synergy>, i: nat, a: string, b: string)
    requires i < |ps|
    ensures LastScore(ps[..i + 1], a, b) == if Key(ps[i]) == {a, b} then ps[i].score else LastScore(ps[..i], a, b)
  {
    assert ps[..i + 1][..i] == ps[..i];
  }

  /** One iteration: the row's score written at both of its cells. */
  method HeatStep(domains: set<string>, ps: seq<Synergy>, i: nat, cells0: map<(string, string), real>)
    returns (cells: map<(string, string), real>)
    requires i < |ps| && ps[i].domainA in domains && ps[i].domainB in domains
    requires HeatFilled(domains, ps, i, cells0)
    ensures HeatFilled(domains, ps, i + 1, cells)
  {
    var s := ps[i];
    cells := cells0[(s.domainA, s.domainB) := s.score][(s.domainB, s.domainA) := s.score];
    forall a, b | a in domains && b in domains && a != b
      ensures cells[(a, b)] == LastScore(ps[..i + 1], a, b)
    {
      LastScoreSnoc(ps, i, a, b);
      if (a, b) == (s.domainA, s.domainB) || (a, b) == (s.domainB, s.domainA) {
        assert Key(s) == {a, b};
      } else {
        assert {a, b} != {s.domainA, s.domainB};
      }
    }
  }

  /** The heatmap after the loop over the rows and `fill_diagonal(0)`. */
  method BuildHeatmap(domains: set<string>, ps: seq<Synergy>) returns (cells: map<(string, string), real>)
    requires forall s :: s in ps ==> s.domainA in domains && s.domainB in domains
    ensures forall a, b :: a in domains && b in domains <==> (a, b) in cells
    ensures forall a, b :: a in domains && b in domains ==> cells[(a, b)] == HeatCell(ps, a, b)
  {
    cells := map a, b | a in domains && b in domains :: (a, b) := 0.0;
    var i := 0;
    while i < |ps|
      invariant 0 <= i <= |ps|
      invariant HeatFilled(domains, ps, i, cells)
    {
      assert ps[i] in ps;
      cells := HeatStep(domains, ps, i, cells);
      i := i + 1;
    }
    assert i == |ps|;
    assert ps[..|ps|] == ps;
    cells := map k | k in cells :: if k.0 == k.1 then 0.0 else cells[k];
  }

  // ---------------------------------------------------------------------
  // get_domain_statistics

  datatype DomainStat = DomainStat(domain: string, projectCount: nat, synergyCount: nat,
                                   avgSimilarity: real, maxSimilarity: real)

  /** The rows naming `d` as `Domain_A` or `Domain_B`. */
  function Involving(ps: seq<Synergy>, d: string): (r: seq<Synergy>)
    ensures |r| <= |ps|
    ensures forall k :: 0 <= k < |r| ==> r[k] in ps && (r[k].domainA == d || r[k].domainB == d)
    ensures forall s :: s in ps && (s.domainA == d || s.domainB == d) ==> s in r
  {
    if ps == [] then []
    else
      var rest := Involving(ps[1..], d);
      assert forall s :: s in ps[1..] ==> s in ps;
      assert forall s :: s in ps ==> s == ps[0] || s in ps[1..];
      (if ps[0].domainA == d || ps[0].domainB == d then [ps[0]] else []) + rest
  }

  function Scores(ps: seq<Synergy>): (r: seq<real>)
    ensures |r| == |ps| && forall k :: 0 <= k < |ps| ==> r[k] == ps[k].score
  {
    if ps == [] then [] else [ps[0].score] + Scores(ps[1..])
  }

  /** The statistics row of one domain. */
  function StatOf(mapping: seq<string>, ps: seq<Synergy>, d: string): DomainStat {
    var inv := Involving(ps, d);
    DomainStat(d, Occurrences(mapping, d), |inv|,
               if inv == [] then 0.0 else Mean(Scores(inv)),
               if inv == [] then 0.0 else MaxOf(Scores(inv)))
  }

  /** The valid domains, each once, in order of first occurrence. */
  function ValidDomains(mapping: seq<string>, minSize: int): (r: seq<string>)
    ensures forall d :: d in r <==> IsValidDomain(mapping, minSize, d)
    ensures forall i, j :: 0 <= i < j < |r| ==> r[i] != r[j]
  {
    FilterDomains(Distinct(mapping), mapping, minSize)
  }

  function FilterDomains(ds: seq<string>, mapping: seq<string>, minSize: int): (r: seq<string>)
    ensures forall d :: d in r <==> d in ds && Occurrences(mapping, d) >= minSize
    ensures (forall i, j :: 0 <= i < j < |ds| ==> ds[i] != ds[j]) ==> forall i, j :: 0 <= i < j < |r| ==> r[i] != r[j]
  {
    if ds == [] then []
    else
      var rest := FilterDomains(ds[1..], mapping, minSize);
      assert forall d :: d in ds <==> d == ds[0] || d in ds[1..];
      if Occurrences(mapping, ds[0]) >= minSize then [ds[0]] + rest else rest
  }

  function StatGe(a: DomainStat, b: DomainStat): bool { a.synergyCount >= b.synergyCount }

  /** One row per valid domain, before sorting. */
  function StatRows(mapping: seq<string>, minSize: int, ps: seq<Synergy>): (pre: seq<DomainStat>)
    ensures var vd := ValidDomains(mapping, minSize);
      |pre| == |vd| && forall k :: 0 <= k < |vd| ==> pre[k] == StatOf(mapping, ps, vd[k])
  {
    var vd := ValidDomains(mapping, minSize);
    seq(|vd|, k requires 0 <= k < |vd| => StatOf(mapping, ps, vd[k]))
  }

  /** The intended `get_domain_statistics`: one row per valid domain,
      sorted by synergy count, highest first. */
  function DomainStatistics(mapping: seq<string>, minSize: int, ps: seq<Synergy>): seq<DomainStat> {
    SortBy(StatRows(mapping, minSize, ps), StatGe)
  }

  lemma DomainStatisticsSorted(mapping: seq<string>, minSize: int, ps: seq<Synergy>)
    ensures SortedBy(DomainStatistics(mapping, minSize, ps), StatGe)
  {
    assert TotalPreorder(StatGe);
    SortBySorted(StatRows(mapping, minSize, ps), StatGe);
  }

  /** Every row is the statistics row of a valid domain, and every valid
      domain has a row. */
  lemma DomainStatisticsRows(mapping: seq<string>, minSize: int, ps: seq<Synergy>)
    ensures var st := DomainStatistics(mapping, minSize, ps);
      (forall d :: IsValidDomain(mapping, minSize, d) <==> exists k :: 0 <= k < |st| && st[k].domain == d) &&
      (forall k :: 0 <= k < |st| ==> st[k] == StatOf(mapping, ps, st[k].domain))
  {
    var vd := ValidDomains(mapping, minSize);
    var pre := StatRows(mapping, minSize, ps);
    var st := DomainStatistics(mapping, minSize, ps);
    forall d | IsValidDomain(mapping, minSize, d) ensures exists k :: 0 <= k < |st| && st[k].domain == d {
      var i :| 0 <= i < |vd| && vd[i] == d;
      assert pre[i] in multiset(st);
    }
    forall k | 0 <= k < |st| ensures st[k] == StatOf(mapping, ps, st[k].domain) && IsValidDomain(mapping, minSize, st[k].domain) {
      assert st[k] in multiset(pre);
      var i :| 0 <= i < |pre| && pre[i] == st[k];
    }
  }

  /** No domain has two rows. */
  lemma DomainStatisticsDistinct(mapping: seq<string>, minSize: int, ps: seq<Synergy>)
    ensures var st := DomainStatistics(mapping, minSize, ps);
      forall i, j :: 0 <= i < j < |st| ==> st[i].domain != st[j].domain
  {
    var pre := StatRows(mapping, minSize, ps);
    var st := DomainStatistics(mapping, minSize, ps);
    DomainStatisticsRows(mapping, minSize, ps);
    forall i, j | 0 <= i < j < |st| ensures st[i].domain != st[j].domain {
      if st[i].domain == st[j].domain {
        assert st[i] == st[j];
        DistinctOnce(pre, st, i, j);
        assert false;
      }
    }
  }

  /** Each valid domain has exactly one row, rows are sorted by synergy
      count, and each row holds its domain's counts, average and maximum. */
  lemma DomainStatisticsSpec(mapping: seq<string>, minSize: int, ps: seq<Synergy>)
    ensures var st := DomainStatistics(mapping, minSize, ps);
      SortedBy(st, StatGe) &&
      (forall d :: IsValidDomain(mapping, minSize, d) <==> exists k :: 0 <= k < |st| && st[k].domain == d) &&
      (forall k :: 0 <= k < |st| ==> st[k] == StatOf(mapping, ps, st[k].domain)) &&
      (forall i, j :: 0 <= i < j < |st| ==> st[i].domain != st[j].domain)
  {
    DomainStatisticsSorted(mapping, minSize, ps);
    DomainStatisticsRows(mapping, minSize, ps);
    DomainStatisticsDistinct(mapping, minSize, ps);
  }

  /** `get_domain_statistics` as written: with no valid domain the loop
      appends nothing and sorting the column-less frame raises `KeyError` on
      `Synergy_Count`; otherwise, with no synergy pairs, the frame has no
      `Domain_A` column and the first lookup raises `KeyError`. */
  function DomainStatisticsAsWritten(mapping: seq<string>, minSize: int, ps: seq<Synergy>): Result<seq<DomainStat>> {
    if ValidDomains(mapping, minSize) == [] then Err("KeyError: 'Synergy_Count'")
    else if ps == [] then Err("KeyError: 'Domain_A'")
    else Ok(DomainStatistics(mapping, minSize, ps))
  }

  /** Without synergy pairs the intended table has one row per valid
      domain, each with no synergies and zero scores. */
  lemma EmptyStatistics(mapping: seq<string>, minSize: int)
    ensures |DomainStatistics(mapping, minSize, [])| == |ValidDomains(mapping, minSize)|
    ensures forall r :: r in DomainStatistics(mapping, minSize, []) ==>
      r.synergyCount == 0 && r.avgSimilarity == 0.0 && r.maxSimilarity == 0.0
  {
    var pre := StatRows(mapping, minSize, []);
    var st := DomainStatistics(mapping, minSize, []);
    forall r | r in st ensures r.synergyCount == 0 && r.avgSimilarity == 0.0 && r.maxSimilarity == 0.0 {
      assert r in multiset(pre);
      var k :| 0 <= k < |pre| && pre[k] == r;
    }
  }

  /** Two projects in two different domains and no pair above the
      threshold: the code raises, while the intended table has a zero row
      for each of the two domains. */
  lemma DomainStatisticsCrash(a: string, b: string)
    requires a != b
    ensures DomainStatisticsAsWritten([a, b], 1, []) == Err("KeyError: 'Domain_A'")
    ensures |DomainStatistics([a, b], 1, [])| == 2
    ensures forall r :: r in DomainStatistics([a, b], 1, []) ==>
      r.synergyCount == 0 && r.avgSimilarity == 0.0 && r.maxSimilarity == 0.0
  {
    EmptyStatistics([a, b], 1);
    TwoValidDomains(a, b);
  }

  /** Two projects in two different domains make both domains valid at a
      minimum size of one. */
  lemma TwoValidDomains(a: string, b: string)
    requires a != b
    ensures ValidDomains([a, b], 1) == [a, b]
  {
    var mapping := [a, b];
    assert mapping[..1] == [a] && [a][..0] == [];
    assert Distinct([a]) == [a];
    assert Distinct(mapping) == [a, b];
    assert Occurrences(mapping, a) >= 1 && Occurrences(mapping, b) >= 1;
    assert [a, b][1..] == [b] && [b][1..] == [];
    assert FilterDomains([b], mapping, 1) == [b];
  }

  // ---------------------------------------------------------------------
  // The agent

  /** `CrossDomainSynergyAgent`.  `rows` is the frame `load_data` reads and
      `tfidf` the matrix `compute_similarities` produces for it;
      `fitRaises` says that fitting the vectoriser raises instead (an empty
      vocabulary, as when every text is a stop word). */
  class SynergyAgent {
    const threshold: real
    const minDomainSize: int
    const rows: seq<Row>
    const tfidf: Matrix
    const fitRaises: bool
    var domainMapping: Option<seq<string>>
    var processedTexts: Option<seq<string>>
    var similarity: Option<Matrix>
    var synergyPairs: Option<seq<Synergy>>

    predicate Valid()
      reads this
    {
      IsSquare(tfidf) && |tfidf| == |rows| &&
      (domainMapping.Some? ==> domainMapping.value == DomainMapping(rows)) &&
      (processedTexts.Some? ==> |processedTexts.value| == |rows|) &&
      (similarity.Some? ==> !fitRaises && similarity.value == tfidf) &&
      (synergyPairs.Some? ==> synergyPairs.value == if domainMapping.Some? then AllSynergies() else []) &&
      (synergyPairs.Some? && domainMapping.None? ==> CandidatePairs(tfidf, threshold) == [])
    }

    /** The synergy rows once domains are known. */
    function AllSynergies(): seq<Synergy>
      reads this
      requires IsSquare(tfidf) && |tfidf| == |rows|
    {
      Synergies(tfidf, rows, DomainMapping(rows), threshold, minDomainSize)
    }

    constructor(threshold: real, minDomainSize: int, rows: seq<Row>, tfidf: Matrix, fitRaises: bool)
      requires IsSquare(tfidf) && |tfidf| == |rows|
      ensures Valid()
      ensures this.threshold == threshold && this.minDomainSize == minDomainSize
      ensures this.rows == rows && this.tfidf == tfidf && this.fitRaises == fitRaises
      ensures domainMapping.None? && processedTexts.None? && similarity.None? && synergyPairs.None?
    {
      this.threshold := threshold;
      this.minDomainSize := minDomainSize;
      this.rows := rows;
      this.tfidf := tfidf;
      this.fitRaises := fitRaises;
      domainMapping := None;
      processedTexts := None;
      similarity := None;
      synergyPairs := None;
    }

    method ExtractDomains()
      requires Valid()
      modifies this
      ensures Valid()
      ensures domainMapping == Some(DomainMapping(rows))
      ensures processedTexts == old(processedTexts) && similarity == old(similarity) && synergyPairs == old(synergyPairs)
    {
      var mapping := CrossDomainText.ExtractDomains(rows);
      if synergyPairs.Some? && domainMapping.None? {
        NoCandidatesNoSynergies(tfidf, rows, mapping, threshold, minDomainSize);
      }
      domainMapping := Some(mapping);
    }

    method PreprocessText()
      requires Valid()
      modifies this
      ensures Valid()
      ensures processedTexts.Some? && |processedTexts.value| == |rows|
      ensures forall i :: 0 <= i < |rows| ==> processedTexts.value[i] == Document(rows[i])
      ensures domainMapping == old(domainMapping) && similarity == old(similarity) && synergyPairs == old(synergyPairs)
    {
      var docs := PreprocessTexts(rows);
      processedTexts := Some(docs);
    }

    /** `compute_similarities`; it raises without preprocessed texts and
        when the vectoriser cannot be fitted. */
    method ComputeSimilarities() returns (ok: bool)
      requires Valid()
      modifies this
      ensures Valid()
      ensures ok == (old(processedTexts).Some? && !fitRaises)
      ensures similarity == if ok then Some(tfidf) else old(similarity)
      ensures domainMapping == old(domainMapping) && processedTexts == old(processedTexts) && synergyPairs == old(synergyPairs)
    {
      if processedTexts.None? || fitRaises {
        return false;
      }
      similarity := Some(tfidf);
      ok := true;
    }

    /** `find_cross_domain_synergies`.  It raises when no matrix can be
      computed, and (indexing the missing domain mapping) when domains were
      not extracted and some pair reaches the threshold. */
    method FindCrossDomainSynergies() returns (ok: bool)
      requires Valid()
      modifies this
      ensures Valid()
      ensures ok <==> (old(similarity).Some? || (processedTexts.Some? && !fitRaises)) &&
                      (domainMapping.Some? || CandidatePairs(tfidf, threshold) == [])
      ensures ok ==> similarity == Some(tfidf)
      ensures ok ==> synergyPairs == Some(if domainMapping.Some? then AllSynergies() else [])
      ensures !ok ==> synergyPairs == old(synergyPairs)
      ensures domainMapping == old(domainMapping) && processedTexts == old(processedTexts)
    {
      if similarity.None? {
        var computed := ComputeSimilarities();
        if !computed {
          return false;
        }
      }
      if domainMapping.None? {
        if CandidatePairs(tfidf, threshold) != [] {
          return false;
        }
        synergyPairs := Some([]);
        return true;
      }
      var pairs := CollectSynergies(tfidf, rows, domainMapping.value, threshold, minDomainSize);
      synergyPairs := Some(pairs);
      ok := true;
    }

    /** Finds the synergies first if there are none yet. */
    method EnsureSynergies() returns (ok: bool)
      requires Valid()
      modifies this
      ensures Valid()
      ensures ok <==> synergyPairs.Some?
      ensures old(synergyPairs).Some? ==> synergyPairs == old(synergyPairs)
      ensures domainMapping == old(domainMapping)
    {
      if synergyPairs.Some? {
        return true;
      }
      ok := FindCrossDomainSynergies();
    }

    /** `get_top_synergies(n)`. */
    method GetTopSynergies(n: int) returns (ok: bool, top: seq<Synergy>)
      requires Valid()
      modifies this
      ensures Valid()
      ensures ok ==> synergyPairs.Some? && top == Head(synergyPairs.value, n)
      ensures ok && n >= 0 ==> |top| == IntMin(n, |synergyPairs.value|)
      ensures old(synergyPairs).Some? ==> ok && synergyPairs == old(synergyPairs)
    {
      ok := EnsureSynergies();
      if !ok {
        return false, [];
      }
      top := Head(synergyPairs.value, n);
    }

    /** Every synergy row names valid domains of the current mapping. */
    lemma PairsUseValidDomains()
      requires Valid() && synergyPairs.Some? && domainMapping.Some?
      ensures forall s :: s in synergyPairs.value ==>
        IsValidDomain(domainMapping.value, minDomainSize, s.domainA) &&
        IsValidDomain(domainMapping.value, minDomainSize, s.domainB)
    {
      forall s | s in synergyPairs.value
        ensures IsValidDomain(domainMapping.value, minDomainSize, s.domainA) &&
                IsValidDomain(domainMapping.value, minDomainSize, s.domainB)
      {
        SynergyShape(tfidf, rows, DomainMapping(rows), threshold, minDomainSize, s);
      }
    }

    /** `create_domain_network(top_n)`: the nodes and the edges. */
    method CreateDomainNetwork(topN: int) returns (ok: bool, nodes: set<string>, edges: map<set<string>, Edge>)
      requires Valid()
      modifies this
      ensures Valid()
      ensures ok <==> synergyPairs.Some?
      ensures ok ==> nodes == ValidDomainSet(if domainMapping.Some? then domainMapping.value else [], minDomainSize)
      ensures ok ==> edges == Network(Head(synergyPairs.value, topN))
      ensures ok ==> forall k :: k in edges ==> k <= nodes
    {
      ok := EnsureSynergies();
      if !ok {
        return false, {}, map[];
      }
      var mapping := if domainMapping.Some? then domainMapping.value else [];
      nodes := ValidDomainSet(mapping, minDomainSize);
      var top := Head(synergyPairs.value, topN);
      edges := BuildNetwork(top);
      if domainMapping.Some? {
        PairsUseValidDomains();
        forall k | k in edges ensures k <= nodes {
          NetworkWithinNodes(top, mapping, minDomainSize, k);
        }
      }
    }

    /** `create_synergy_heatmap`'s matrix over all assigned domains; it
      raises without a domain mapping. */
    method CreateSynergyHeatmap() returns (ok: bool, domains: set<string>, cells: map<(string, string), real>)
      requires Valid()
      modifies this
      ensures Valid()
      ensures ok <==> synergyPairs.Some? && domainMapping.Some?
      ensures ok ==> domains == (set d | d in domainMapping.value)
      ensures ok ==> forall a, b :: a in domains && b in domains <==> (a, b) in cells
      ensures ok ==> forall a, b :: a in domains && b in domains ==> cells[(a, b)] == HeatCell(synergyPairs.value, a, b)
    {
      ok := EnsureSynergies();
      if !ok || domainMapping.None? {
        return false, {}, map[];
      }
      domains := set d | d in domainMapping.value;
      PairsUseValidDomains();
      cells := BuildHeatmap(domains, synergyPairs.value);
    }

    /** `get_domain_statistics`, with the missing-column crash corrected. */
    method GetDomainStatistics() returns (ok: bool, stats: seq<DomainStat>)
      requires Valid()
      modifies this
      ensures Valid()
      ensures ok <==> synergyPairs.Some?
      ensures ok ==> stats == DomainStatistics(if domainMapping.Some? then domainMapping.value else [],
                                               minDomainSize, synergyPairs.value)
    {
      ok := EnsureSynergies();
      if !ok {
        return false, [];
      }
      var mapping := if domainMapping.Some? then domainMapping.value else [];
      stats := DomainStatistics(mapping, minDomainSize, synergyPairs.value);
    }
  }
}
