/** The thresholded similarity graph shared by the similarity services.
    The similarity matrix is an input (the vectorisers that produce it are
    not modelled).  The services look only at the upper triangle: nodes
    i < j are joined when sim[i][j] reaches the threshold. */
module SimGraph {

  type Matrix = seq<seq<real>>

  predicate IsSquare(m: Matrix) {
    forall i :: 0 <= i < |m| ==> |m[i]| == |m|
  }

  /** i < j and sim[i][j] >= threshold. */
  predicate Above(m: Matrix, t: real, i: nat, j: nat) {
    i < j < |m| && j < |m[i]| && m[i][j] >= t
  }

  /** The undirected edge i--j of the thresholded graph. */
  predicate Adj(m: Matrix, t: real, u: nat, v: nat) {
    Above(m, t, u, v) || Above(m, t, v, u)
  }

  // ---------------------------------------------------------------------
  // The pairs in the order of the nested loops `for i: for j in range(i + 1, n)`

  /** The pairs (i, k), i < k < j, that reach the threshold, by increasing k. */
  function RowPairs(m: Matrix, t: real, i: nat, j: nat): seq<(nat, nat)>
    decreases j
  {
    if j <= i + 1 then []
    else RowPairs(m, t, i, j - 1) + (if Above(m, t, i, j - 1) then [(i, j - 1)] else [])
  }

  /** The pairs of rows 0 .. i-1, row by row. */
  function PairsBefore(m: Matrix, t: real, i: nat): seq<(nat, nat)> {
    if i == 0 then [] else PairsBefore(m, t, i - 1) + RowPairs(m, t, i - 1, |m|)
  }

  /** Every thresholded pair in loop order. */
  function CandidatePairs(m: Matrix, t: real): seq<(nat, nat)> {
    PairsBefore(m, t, |m|)
  }

  lemma {:induction false} RowPairsSound(m: Matrix, t: real, i: nat, j: nat, p: (nat, nat))
    requires p in RowPairs(m, t, i, j)
    ensures p.0 == i && p.1 < j && Above(m, t, p.0, p.1)
    decreases j
  {
    var before := RowPairs(m, t, i, j - 1);
    if p in before {
      RowPairsSound(m, t, i, j - 1, p);
    }
  }

  lemma {:induction false} RowPairsComplete(m: Matrix, t: real, i: nat, j: nat, p: (nat, nat))
    requires p.0 == i && p.1 < j && Above(m, t, p.0, p.1)
    ensures p in RowPairs(m, t, i, j)
    decreases j
  {
    if p.1 < j - 1 {
      RowPairsComplete(m, t, i, j - 1, p);
    }
  }

  lemma RowPairsMembership(m: Matrix, t: real, i: nat, j: nat, p: (nat, nat))
    ensures p in RowPairs(m, t, i, j) <==> p.0 == i && p.1 < j && Above(m, t, p.0, p.1)
  {
    if p in RowPairs(m, t, i, j) {
      RowPairsSound(m, t, i, j, p);
    }
    if p.0 == i && p.1 < j && Above(m, t, p.0, p.1) {
      RowPairsComplete(m, t, i, j, p);
    }
  }

  lemma {:induction false} PairsBeforeSound(m: Matrix, t: real, i: nat, p: (nat, nat))
    requires i <= |m| && p in PairsBefore(m, t, i)
    ensures p.0 < i && Above(m, t, p.0, p.1)
  {
    if i > 0 {
      var a, b := PairsBefore(m, t, i - 1), RowPairs(m, t, i - 1, |m|);
      assert PairsBefore(m, t, i) == a + b;
      InConcat(p, a, b);
      if p in a {
        PairsBeforeSound(m, t, i - 1, p);
      } else {
        RowPairsSound(m, t, i - 1, |m|, p);
      }
    }
  }

  lemma {:induction false} PairsBeforeComplete(m: Matrix, t: real, i: nat, p: (nat, nat))
    requires i <= |m| && p.0 < i && Above(m, t, p.0, p.1)
    ensures p in PairsBefore(m, t, i)
  {
    var a, b := PairsBefore(m, t, i - 1), RowPairs(m, t, i - 1, |m|);
    assert PairsBefore(m, t, i) == a + b;
    if p.0 < i - 1 {
      PairsBeforeComplete(m, t, i - 1, p);
      InConcat(p, a, b);
    } else {
      RowPairsComplete(m, t, i - 1, |m|, p);
      InConcat(p, a, b);
    }
  }

  lemma InConcat<T>(x: T, a: seq<T>, b: seq<T>)
    ensures x in a + b <==> x in a || x in b
  {
  }

  lemma PairsBeforeMembership(m: Matrix, t: real, i: nat, p: (nat, nat))
    requires i <= |m|
    ensures p in PairsBefore(m, t, i) <==> p.0 < i && Above(m, t, p.0, p.1)
  {
    if p in PairsBefore(m, t, i) {
      PairsBeforeSound(m, t, i, p);
    }
    if p.0 < i && Above(m, t, p.0, p.1) {
      PairsBeforeComplete(m, t, i, p);
    }
  }

  /** The reported pairs are exactly the (i, j), i < j, with sim[i][j] >= threshold. */
  lemma CandidatePairsExact(m: Matrix, t: real, i: nat, j: nat)
    ensures (i, j) in CandidatePairs(m, t) <==> Above(m, t, i, j)
  {
    PairsBeforeMembership(m, t, |m|, (i, j));
  }

  /** Raising the threshold can only remove pairs. */
  lemma CandidatePairsMonotone(m: Matrix, t1: real, t2: real, p: (nat, nat))
    requires t1 <= t2 && p in CandidatePairs(m, t2)
    ensures p in CandidatePairs(m, t1)
  {
    PairsBeforeMembership(m, t2, |m|, p);
    PairsBeforeMembership(m, t1, |m|, p);
  }

  // ---------------------------------------------------------------------
  // Reachability

  ghost predicate IsPath(m: Matrix, t: real, p: seq<nat>) {
    |p| >= 1 &&
    (forall k :: 0 <= k < |p| ==> p[k] < |m|) &&
    (forall k :: 0 <= k < |p| - 1 ==> Adj(m, t, p[k], p[k + 1]))
  }

  /** u and v lie in the same connected component. */
  ghost predicate Reach(m: Matrix, t: real, u: nat, v: nat) {
    exists p :: IsPath(m, t, p) && p[0] == u && p[|p| - 1] == v
  }

  lemma ReachRefl(m: Matrix, t: real, u: nat)
    requires u < |m|
    ensures Reach(m, t, u, u)
  {
    assert IsPath(m, t, [u]);
  }

  lemma ReachEdge(m: Matrix, t: real, u: nat, v: nat)
    requires Adj(m, t, u, v)
    ensures Reach(m, t, u, v)
  {
    assert IsPath(m, t, [u, v]);
  }

  lemma ReachStep(m: Matrix, t: real, u: nat, v: nat, w: nat)
    requires Reach(m, t, u, v) && Adj(m, t, v, w)
    ensures Reach(m, t, u, w)
  {
    var p :| IsPath(m, t, p) && p[0] == u && p[|p| - 1] == v;
    var q := p + [w];
    forall k | 0 <= k < |q| - 1 ensures Adj(m, t, q[k], q[k + 1]) {
      if k + 1 < |p| { assert q[k] == p[k] && q[k + 1] == p[k + 1]; } else { assert q[k] == v && q[k + 1] == w; }
    }
    assert IsPath(m, t, q);
  }

  function Reverse(p: seq<nat>): (r: seq<nat>)
    ensures |r| == |p|
    ensures forall k :: 0 <= k < |p| ==> r[k] == p[|p| - 1 - k]
  {
    seq(|p|, k requires 0 <= k < |p| => p[|p| - 1 - k])
  }

  lemma ReachSym(m: Matrix, t: real, u: nat, v: nat)
    requires Reach(m, t, u, v)
    ensures Reach(m, t, v, u)
  {
    var p :| IsPath(m, t, p) && p[0] == u && p[|p| - 1] == v;
    var r := Reverse(p);
    forall k | 0 <= k < |r| - 1 ensures Adj(m, t, r[k], r[k + 1]) {
      assert Adj(m, t, p[|p| - 2 - k], p[|p| - 1 - k]);
    }
    assert IsPath(m, t, r);
  }

  lemma ReachTrans(m: Matrix, t: real, u: nat, v: nat, w: nat)
    requires Reach(m, t, u, v) && Reach(m, t, v, w)
    ensures Reach(m, t, u, w)
  {
    var p :| IsPath(m, t, p) && p[0] == u && p[|p| - 1] == v;
    var q :| IsPath(m, t, q) && q[0] == v && q[|q| - 1] == w;
    var r := p + q[1..];
    forall k | 0 <= k < |r| - 1 ensures Adj(m, t, r[k], r[k + 1]) {
      if k < |p| - 1 {
        assert r[k] == p[k] && r[k + 1] == p[k + 1];
      } else {
        assert r[k] == q[k - |p| + 1] && r[k + 1] == q[k - |p| + 2];
      }
    }
    assert IsPath(m, t, r);
  }

  /** Raising the threshold never merges components. */
  lemma ReachMonotone(m: Matrix, t1: real, t2: real, u: nat, v: nat)
    requires t1 <= t2 && Reach(m, t2, u, v)
    ensures Reach(m, t1, u, v)
  {
    var p :| IsPath(m, t2, p) && p[0] == u && p[|p| - 1] == v;
    assert IsPath(m, t1, p);
  }

  /** A node with a neighbour reaches a node other than itself, and conversely. */
  lemma ReachOtherIffEdge(m: Matrix, t: real, u: nat)
    ensures (exists v: nat :: v != u && Reach(m, t, u, v)) <==> (exists v: nat :: Adj(m, t, u, v))
  {
    if v: nat :| v != u && Reach(m, t, u, v) {
      var p :| IsPath(m, t, p) && p[0] == u && p[|p| - 1] == v;
      assert |p| >= 2;
      assert Adj(m, t, u, p[1]);
    }
    if v: nat :| Adj(m, t, u, v) {
      ReachEdge(m, t, u, v);
      assert u != v;
    }
  }

  /** A comp class closed under edges contains everything reachable from its members. */
  lemma ClosedReach(m: Matrix, t: real, lab: seq<int>, c: int, u: nat, v: nat)
    requires |lab| == |m| && u < |m| && lab[u] == c
    requires forall a: nat, b: nat :: a < |m| && b < |m| && lab[a] == c && Adj(m, t, a, b) ==> lab[b] == c
    requires Reach(m, t, u, v)
    ensures lab[v] == c
  {
    var p :| IsPath(m, t, p) && p[0] == u && p[|p| - 1] == v;
    var k := 0;
    while k < |p| - 1
      invariant 0 <= k < |p| && lab[p[k]] == c
    {
      assert Adj(m, t, p[k], p[k + 1]);
      k := k + 1;
    }
    assert k == |p| - 1;
  }

  lemma {:induction false} CardBelow(s: set<nat>, n: nat)
    requires forall x :: x in s ==> x < n
    ensures |s| <= n
  {
    if n > 0 {
      CardBelow(s - {n - 1}, n - 1);
    } else {
      assert s == {};
    }
  }

  // ---------------------------------------------------------------------
  // Connected components by breadth-first search
  //
  // A labelling gives every node a component number, or -1 while unvisited.

  /** `lab` keeps every label of `lab0` and gives unvisited nodes at most the label c. */
  ghost predicate Extends(lab0: seq<int>, lab: seq<int>, c: int) {
    |lab| == |lab0| &&
    forall v :: 0 <= v < |lab0| ==> if lab0[v] >= 0 then lab[v] == lab0[v] else lab[v] == c || lab[v] == -1
  }

  ghost predicate AllReached(m: Matrix, t: real, lab: seq<int>, s: nat, c: int) {
    |lab| == |m| && forall v :: 0 <= v < |m| && lab[v] == c ==> Reach(m, t, s, v)
  }

  /** The queue holds distinct nodes labelled c that are not yet done. */
  ghost predicate QueueOk(lab: seq<int>, c: int, queue: seq<nat>, done: set<nat>) {
    (forall k :: 0 <= k < |queue| ==> queue[k] < |lab| && lab[queue[k]] == c && queue[k] !in done) &&
    (forall i, j :: 0 <= i < j < |queue| ==> queue[i] != queue[j])
  }

  /** Done nodes are labelled c and so are all their neighbours. */
  ghost predicate DoneOk(m: Matrix, t: real, lab: seq<int>, c: int, done: set<nat>) {
    (forall v :: v in done ==> v < |lab| && lab[v] == c) &&
    (forall a: nat, b: nat :: a in done && b < |lab| && Adj(m, t, a, b) ==> lab[b] == c)
  }

  /** Every node labelled c is done or waiting in the queue. */
  ghost predicate Covered(lab: seq<int>, c: int, queue: seq<nat>, done: set<nat>) {
    forall v: nat :: v < |lab| && lab[v] == c ==> v in done || v in queue
  }

  /** Labelled nodes have all their neighbours in their own component. */
  ghost predicate Closed(m: Matrix, t: real, lab: seq<int>) {
    |lab| == |m| &&
    forall a: nat, b: nat :: a < |m| && b < |m| && lab[a] >= 0 && Adj(m, t, a, b) ==> lab[b] == lab[a]
  }

  /** Visits the neighbours of `u`, labelling and queueing the unvisited ones. */
  method ScanNeighbours(m: Matrix, t: real, lab0: seq<int>, s: nat, c: nat, u: nat,
                        labIn: seq<int>, queueIn: seq<nat>, ghost done: set<nat>)
    returns (lab: seq<int>, queue: seq<nat>)
    requires |lab0| == |m| && s < |m| && u < |m|
    requires forall v :: 0 <= v < |m| ==> -1 <= lab0[v] < c
    requires Closed(m, t, lab0)
    requires Extends(lab0, labIn, c) && AllReached(m, t, labIn, s, c) && labIn[u] == c
    requires QueueOk(labIn, c, queueIn, done + {u}) && DoneOk(m, t, labIn, c, done)
    requires Covered(labIn, c, queueIn, done + {u})
    ensures Extends(lab0, lab, c) && AllReached(m, t, lab, s, c)
    ensures QueueOk(lab, c, queue, done + {u}) && DoneOk(m, t, lab, c, done + {u})
    ensures Covered(lab, c, queue, done + {u})
    ensures forall v :: 0 <= v < |labIn| && labIn[v] == c ==> lab[v] == c
  {
    var n := |m|;
    lab, queue := labIn, queueIn;
    var w: nat := 0;
    while w < n
      invariant w <= n && Scanned(m, t, lab0, s, c, u, labIn, lab, queue, done, w)
    {
      lab, queue := VisitNeighbour(m, t, lab0, s, c, u, labIn, lab, queue, done, w);
      w := w + 1;
    }
    assert w == n;
  }

  /** The state of the neighbour loop of `u` before node w. */
  ghost predicate Scanned(m: Matrix, t: real, lab0: seq<int>, s: nat, c: nat, u: nat,
                          labIn: seq<int>, lab: seq<int>, queue: seq<nat>, done: set<nat>, w: nat) {
    Extends(lab0, lab, c) && AllReached(m, t, lab, s, c) && u < |lab| && lab[u] == c &&
    QueueOk(lab, c, queue, done + {u}) && DoneOk(m, t, lab, c, done) &&
    Covered(lab, c, queue, done + {u}) &&
    (forall b: nat :: b < w && b < |lab| && Adj(m, t, u, b) ==> lab[b] == c) &&
    (forall v :: 0 <= v < |labIn| && labIn[v] == c ==> v < |lab| && lab[v] == c)
  }

  /** One pass of the neighbour loop: an unvisited neighbour w is labelled
      and queued. */
  method VisitNeighbour(m: Matrix, t: real, lab0: seq<int>, s: nat, c: nat, u: nat,
                        labIn: seq<int>, lab1: seq<int>, queue1: seq<nat>, ghost done: set<nat>, w: nat)
    returns (lab: seq<int>, queue: seq<nat>)
    requires |lab0| == |m| && s < |m| && u < |m| && w < |m|
    requires (forall v :: 0 <= v < |m| ==> -1 <= lab0[v] < c) && Closed(m, t, lab0)
    requires Scanned(m, t, lab0, s, c, u, labIn, lab1, queue1, done, w)
    ensures Scanned(m, t, lab0, s, c, u, labIn, lab, queue, done, w + 1)
  {
    lab, queue := lab1, queue1;
    if Adj(m, t, u, w) {
      if lab[w] == -1 {
        ReachStep(m, t, s, u, w);
        lab := lab[w := c];
        queue := queue + [w];
      } else {
        assert Adj(m, t, w, u);
      }
    }
  }

  /** The nodes labelled c after `Explore` are exactly the unvisited nodes reachable from s. */
  ghost predicate Explored(m: Matrix, t: real, lab0: seq<int>, lab: seq<int>, s: nat, c: nat) {
    |lab0| == |m| && Extends(lab0, lab, c) &&
    forall v :: 0 <= v < |m| && lab0[v] == -1 ==> (lab[v] == c <==> Reach(m, t, s, v))
  }

  /** Breadth-first search from `s`, labelling what it reaches with `c`. */
  method Explore(m: Matrix, t: real, lab0: seq<int>, s: nat, c: nat) returns (lab: seq<int>)
    requires |lab0| == |m| && s < |m| && lab0[s] == -1
    requires forall v :: 0 <= v < |m| ==> -1 <= lab0[v] < c
    requires Closed(m, t, lab0)
    ensures Explored(m, t, lab0, lab, s, c)
  {
    var n := |m|;
    lab := lab0[s := c];
    var queue: seq<nat> := [s];
    ghost var done: set<nat> := {};
    ReachRefl(m, t, s);
    while queue != []
      invariant Extends(lab0, lab, c) && AllReached(m, t, lab, s, c) && lab[s] == c
      invariant QueueOk(lab, c, queue, done) && DoneOk(m, t, lab, c, done)
      invariant Covered(lab, c, queue, done)
      invariant |done| <= n
      decreases n - |done|
    {
      var u := queue[0];
      assert u !in queue[1..];
      lab, queue := ScanNeighbours(m, t, lab0, s, c, u, lab, queue[1..], done);
      done := done + {u};
      CardBelow(done, n);
    }
    forall v | 0 <= v < n && lab0[v] == -1 && Reach(m, t, s, v) ensures lab[v] == c {
      ClosedReach(m, t, lab, c, s, v);
    }
  }

  /** Every labelled node shares its label exactly with the nodes it reaches. */
  ghost predicate Consistent(m: Matrix, t: real, lab: seq<int>) {
    |lab| == |m| &&
    forall u, v :: 0 <= u < |m| && 0 <= v < |m| && lab[u] >= 0 ==> (lab[v] == lab[u] <==> Reach(m, t, u, v))
  }

  lemma ConsistentClosed(m: Matrix, t: real, lab: seq<int>)
    requires Consistent(m, t, lab)
    ensures Closed(m, t, lab)
  {
    forall a: nat, b: nat | a < |m| && b < |m| && lab[a] >= 0 && Adj(m, t, a, b) ensures lab[b] == lab[a] {
      ReachEdge(m, t, a, b);
    }
  }

  lemma ConsistentAfterExplore(m: Matrix, t: real, lab: seq<int>, lab1: seq<int>, s: nat, c: nat)
    requires Consistent(m, t, lab) && s < |m| && lab[s] == -1
    requires forall v :: 0 <= v < |m| ==> -1 <= lab[v] < c
    requires Explored(m, t, lab, lab1, s, c)
    ensures Consistent(m, t, lab1)
  {
    forall u, v | 0 <= u < |m| && 0 <= v < |m| && lab1[u] >= 0
      ensures lab1[v] == lab1[u] <==> Reach(m, t, u, v)
    {
      if lab[u] == -1 {
        if Reach(m, t, u, v) {
          ReachTrans(m, t, s, u, v);
          ReachSym(m, t, s, v);
        }
        if lab1[v] == c {
          ReachSym(m, t, s, u);
          ReachTrans(m, t, u, s, v);
        }
      }
    }
  }

  /** The state of the component loop before node s: nodes below s are
      labelled, component k has its smallest node `reps[k]`, and labels
      agree with reachability. */
  ghost predicate Labelled(m: Matrix, t: real, lab: seq<int>, reps: seq<nat>, s: nat) {
    |lab| == |m| &&
    (forall v :: 0 <= v < |m| ==> -1 <= lab[v] < |reps|) &&
    (forall v :: 0 <= v < s && v < |m| ==> lab[v] >= 0) &&
    (forall k :: 0 <= k < |reps| ==> reps[k] < s && reps[k] < |m| && lab[reps[k]] == k) &&
    (forall i, j :: 0 <= i < j < |reps| ==> reps[i] < reps[j]) &&
    (forall v :: 0 <= v < |m| && lab[v] >= 0 ==> reps[lab[v]] <= v) &&
    Consistent(m, t, lab)
  }

  /** One pass of the component loop: an unvisited node s starts a new
      component and the search labels everything it reaches. */
  method VisitNode(m: Matrix, t: real, lab0: seq<int>, reps0: seq<nat>, s: nat) returns (lab: seq<int>, reps: seq<nat>)
    requires s < |m| && Labelled(m, t, lab0, reps0, s)
    ensures Labelled(m, t, lab, reps, s + 1)
  {
    lab, reps := lab0, reps0;
    if lab[s] == -1 {
      var c := |reps|;
      ConsistentClosed(m, t, lab);
      var lab1 := Explore(m, t, lab, s, c);
      ConsistentAfterExplore(m, t, lab, lab1, s, c);
      ReachRefl(m, t, s);
      lab := lab1;
      reps := reps + [s];
    }
  }

  /** `networkx.connected_components` on the graph with nodes 0..n-1 added in
      order: component k gets number k and representative `reps[k]`, its
      smallest node, and components come in the order of their smallest node. */
  method Components(m: Matrix, t: real) returns (comp: seq<nat>, reps: seq<nat>)
    ensures |comp| == |m|
    ensures forall v :: 0 <= v < |m| ==> comp[v] < |reps|
    ensures forall k :: 0 <= k < |reps| ==> reps[k] < |m| && comp[reps[k]] == k
    ensures forall i, j :: 0 <= i < j < |reps| ==> reps[i] < reps[j]
    ensures forall v :: 0 <= v < |m| ==> reps[comp[v]] <= v
    ensures forall u, v :: 0 <= u < |m| && 0 <= v < |m| ==> (comp[u] == comp[v] <==> Reach(m, t, u, v))
  {
    var n := |m|;
    var lab: seq<int> := seq(n, _ => -1);
    reps := [];
    var s := 0;
    while s < n
      invariant 0 <= s <= n && Labelled(m, t, lab, reps, s)
    {
      lab, reps := VisitNode(m, t, lab, reps, s);
      s := s + 1;
    }
    assert s == n;
    comp := seq(n, v requires 0 <= v < n => if lab[v] >= 0 then lab[v] as nat else 0);
  }

  // ---------------------------------------------------------------------
  // Component member lists

  /** The nodes below `upto` labelled `k`, in increasing order. */
  function MembersBelow(comp: seq<nat>, k: nat, upto: nat): (r: seq<nat>)
    requires upto <= |comp|
    ensures forall i :: 0 <= i < |r| ==> r[i] < upto && comp[r[i]] == k
    ensures forall i, j :: 0 <= i < j < |r| ==> r[i] < r[j]
  {
    if upto == 0 then []
    else MembersBelow(comp, k, upto - 1) + (if comp[upto - 1] == k then [upto - 1] else [])
  }

  /** The members of component k: `list(component)`, taken in increasing order. */
  function Members(comp: seq<nat>, k: nat): seq<nat> {
    MembersBelow(comp, k, |comp|)
  }

  lemma {:induction false} MembersBelowExact(comp: seq<nat>, k: nat, upto: nat, v: nat)
    requires upto <= |comp|
    ensures v in MembersBelow(comp, k, upto) <==> v < upto && comp[v] == k
  {
    if upto > 0 {
      MembersBelowExact(comp, k, upto - 1, v);
    }
  }

  lemma MembersExact(comp: seq<nat>, k: nat, v: nat)
    ensures v in Members(comp, k) <==> v < |comp| && comp[v] == k
  {
    MembersBelowExact(comp, k, |comp|, v);
  }
}
