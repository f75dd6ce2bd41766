// The reference searches of the shell untangler's suite: the layered breadth-first
// hop table and the flood fill over a cluster
// (addon_host_tests/_shell_untangle_.py:207-219, 258-281).
module GraphSearch {

  // ---- Walks and distances over a set of directed edges --------------------------

  type Edges = set<(nat, nat)>

  ghost predicate IsWalk(edges: Edges, p: seq<nat>) {
    |p| > 0 && forall i :: 0 <= i < |p| - 1 ==> (p[i], p[i + 1]) in edges
  }

  // A walk of d edges from s to v.
  ghost predicate WalkOf(edges: Edges, s: nat, v: nat, d: nat) {
    exists p :: IsWalk(edges, p) && |p| == d + 1 && p[0] == s && p[d] == v
  }

  // d is the length of a shortest walk.
  ghost predicate IsDistance(edges: Edges, s: nat, v: nat, d: nat) {
    WalkOf(edges, s, v, d) && forall e: nat :: e < d ==> !WalkOf(edges, s, v, e)
  }

  ghost predicate Reaches(edges: Edges, s: nat, v: nat) {
    exists d: nat :: WalkOf(edges, s, v, d)
  }

  lemma WalkHere(edges: Edges, s: nat)
    ensures WalkOf(edges, s, s, 0)
  {
    assert IsWalk(edges, [s]);
  }

  lemma WalkOn(edges: Edges, s: nat, u: nat, v: nat, d: nat)
    requires WalkOf(edges, s, u, d) && (u, v) in edges
    ensures WalkOf(edges, s, v, d + 1)
  {
    var p :| IsWalk(edges, p) && |p| == d + 1 && p[0] == s && p[d] == u;
    assert IsWalk(edges, p + [v]);
  }

  lemma WalkBack(edges: Edges, s: nat, v: nat, d: nat) returns (u: nat)
    requires WalkOf(edges, s, v, d + 1)
    ensures WalkOf(edges, s, u, d) && (u, v) in edges
  {
    var p :| IsWalk(edges, p) && |p| == d + 2 && p[0] == s && p[d + 1] == v;
    u := p[d];
    assert IsWalk(edges, p[..d + 1]);
  }

  // Any walk bounds a shortest one.
  lemma {:induction false} ShortestBelow(edges: Edges, s: nat, v: nat, e: nat) returns (d: nat)
    requires WalkOf(edges, s, v, e)
    ensures d <= e && IsDistance(edges, s, v, d)
  {
    if k: nat :| k < e && WalkOf(edges, s, v, k) {
      d := ShortestBelow(edges, s, v, k);
    } else {
      d := e;
    }
  }

  lemma DistanceUnique(edges: Edges, s: nat, v: nat, d: nat, e: nat)
    requires IsDistance(edges, s, v, d) && IsDistance(edges, s, v, e)
    ensures d == e
  {
    hide WalkOf;
    if d < e {
    } else if e < d {
    }
  }

  // The last step of a shortest walk leaves a vertex one closer.
  lemma DistanceBack(edges: Edges, s: nat, v: nat, d: nat) returns (u: nat)
    requires IsDistance(edges, s, v, d + 1)
    ensures IsDistance(edges, s, u, d) && (u, v) in edges
  {
    hide WalkOf;
    u := WalkBack(edges, s, v, d);
    forall e: nat | e < d ensures !WalkOf(edges, s, u, e) {
      if WalkOf(edges, s, u, e) {
        WalkOn(edges, s, u, v, e);
      }
    }
  }

  // ---- Adjacency built from the paired index lists ------------------------------------

  ghost function EdgesOf(adjI: seq<nat>, adjJ: seq<nat>): Edges
    requires |adjI| == |adjJ|
  {
    set k | 0 <= k < |adjI| :: (adjI[k], adjJ[k])
  }

  // The two lists pair u with v.
  ghost predicate Paired(adjI: seq<nat>, adjJ: seq<nat>, u: nat, v: nat)
    requires |adjI| == |adjJ|
  {
    exists k :: 0 <= k < |adjI| && adjI[k] == u && adjJ[k] == v
  }

  // A path of pairs from s to v in d steps.
  ghost predicate PathOf(adjI: seq<nat>, adjJ: seq<nat>, p: seq<nat>, s: nat, v: nat, d: nat)
    requires |adjI| == |adjJ|
  {
    |p| == d + 1 && p[0] == s && p[d] == v && forall i :: 0 <= i < d ==> Paired(adjI, adjJ, p[i], p[i + 1])
  }

  // d is the least number of steps from s to v.
  ghost predicate Hops(adjI: seq<nat>, adjJ: seq<nat>, s: nat, v: nat, d: nat)
    requires |adjI| == |adjJ|
  {
    (exists p :: PathOf(adjI, adjJ, p, s, v, d)) && forall q, e: nat :: PathOf(adjI, adjJ, q, s, v, e) ==> d <= e
  }

  lemma PathIsWalk(adjI: seq<nat>, adjJ: seq<nat>, p: seq<nat>, s: nat, v: nat, d: nat)
    requires |adjI| == |adjJ|
    ensures PathOf(adjI, adjJ, p, s, v, d) <==>
      IsWalk(EdgesOf(adjI, adjJ), p) && |p| == d + 1 && p[0] == s && p[d] == v
  {
    var edges := EdgesOf(adjI, adjJ);
    forall a: nat, b: nat ensures Paired(adjI, adjJ, a, b) <==> (a, b) in edges {
    }
    hide Paired;
    if IsWalk(edges, p) && |p| == d + 1 && p[0] == s && p[d] == v {
      forall i | 0 <= i < d ensures Paired(adjI, adjJ, p[i], p[i + 1]) {
        assert (p[i], p[i + 1]) in edges;
      }
    }
  }

  lemma WalksArePaths(adjI: seq<nat>, adjJ: seq<nat>, s: nat, v: nat, d: nat)
    requires |adjI| == |adjJ|
    ensures WalkOf(EdgesOf(adjI, adjJ), s, v, d) <==> exists p :: PathOf(adjI, adjJ, p, s, v, d)
  {
    hide PathOf, IsWalk, EdgesOf;
    forall p
      ensures PathOf(adjI, adjJ, p, s, v, d) <==>
        IsWalk(EdgesOf(adjI, adjJ), p) && |p| == d + 1 && p[0] == s && p[d] == v
    {
      PathIsWalk(adjI, adjJ, p, s, v, d);
    }
  }

  lemma HopsAre(adjI: seq<nat>, adjJ: seq<nat>, s: nat, v: nat, d: nat)
    requires |adjI| == |adjJ|
    ensures Hops(adjI, adjJ, s, v, d) <==> IsDistance(EdgesOf(adjI, adjJ), s, v, d)
  {
    var edges := EdgesOf(adjI, adjJ);
    hide PathOf, WalkOf, EdgesOf;
    forall e: nat ensures WalkOf(edges, s, v, e) <==> exists p :: PathOf(adjI, adjJ, p, s, v, e) {
      WalksArePaths(adjI, adjJ, s, v, e);
    }
    if IsDistance(edges, s, v, d) {
      forall q, e: nat | PathOf(adjI, adjJ, q, s, v, e) ensures d <= e {
        assert WalkOf(edges, s, v, e);
      }
    }
    if Hops(adjI, adjJ, s, v, d) {
      forall e: nat | e < d ensures !WalkOf(edges, s, v, e) {
        assert !exists q :: PathOf(adjI, adjJ, q, s, v, e);
      }
    }
  }

  ghost predicate Lists(nbr: seq<seq<nat>>, edges: Edges) {
    && (forall u: nat, v: nat :: 0 <= u < |nbr| ==> (v in nbr[u] <==> (u, v) in edges))
    && forall u: nat, v: nat :: (u, v) in edges ==> u < |nbr| && v < |nbr|
  }

  ghost predicate PartLists(nbr: seq<seq<nat>>, adjI: seq<nat>, adjJ: seq<nat>, n: nat)
    requires n <= |adjI| == |adjJ|
  {
    forall u: nat, v: nat :: 0 <= u < |nbr|
      ==> (v in nbr[u] <==> exists k :: 0 <= k < n && adjI[k] == u && adjJ[k] == v)
  }

  method NeighbourLists(n: nat, adjI: seq<nat>, adjJ: seq<nat>) returns (nbr: seq<seq<nat>>)
    requires |adjI| == |adjJ| && (forall i :: i in adjI ==> i < n) && (forall j :: j in adjJ ==> j < n)
    ensures |nbr| == n && Lists(nbr, EdgesOf(adjI, adjJ))
    ensures forall u: nat, v: nat :: u < n ==> (v in nbr[u] <==> Paired(adjI, adjJ, u, v))
  {
    nbr := seq(n, i => []);
    for k := 0 to |adjI|
      invariant |nbr| == n && PartLists(nbr, adjI, adjJ, k)
    {
      assert adjI[k] in adjI;
      nbr := nbr[adjI[k] := nbr[adjI[k]] + [adjJ[k]]];
    }
    assert forall u: nat, v: nat :: (u, v) in EdgesOf(adjI, adjJ) ==> u in adjI && v in adjJ;
  }

  // ---- Layered breadth-first search -----------------------------------------------------

  // dist holds exactly the vertices closer than hop, each with its distance.
  ghost predicate Within(edges: Edges, src: nat, dist: map<nat, nat>, hop: nat) {
    forall v: nat, d: nat :: v in dist && dist[v] == d <==> d < hop && IsDistance(edges, src, v, d)
  }

  ghost predicate Layer(edges: Edges, src: nat, frontier: seq<nat>, d: nat) {
    forall v: nat :: v in frontier <==> IsDistance(edges, src, v, d)
  }

  predicate Indexed(nbr: seq<seq<nat>>, frontier: seq<nat>) {
    forall i :: 0 <= i < |frontier| ==> frontier[i] < |nbr|
  }

  // v is next to one of the first f frontier vertices, or among the first m neighbours of u.
  ghost predicate Met(nbr: seq<seq<nat>>, frontier: seq<nat>, f: nat, here: seq<nat>, m: nat, v: nat)
    requires f <= |frontier| && m <= |here| && Indexed(nbr, frontier)
  {
    (exists i :: 0 <= i < f && v in nbr[frontier[i]]) || v in here[..m]
  }

  // What one layer adds, so far: the vertices met that were not known before.
  ghost predicate Adding(nbr: seq<seq<nat>>, frontier: seq<nat>, f: nat, here: seq<nat>, m: nat, hop: nat,
      known: map<nat, nat>, dist: map<nat, nat>, nxt: seq<nat>)
    requires f <= |frontier| && m <= |here| && Indexed(nbr, frontier)
  {
    && (forall v: nat :: v in nxt <==> v !in known && Met(nbr, frontier, f, here, m, v))
    && (forall v: nat :: v in dist <==> v in known || v in nxt)
    && (forall v: nat :: v in dist ==> dist[v] == if v in known then known[v] else hop)
  }

  method Expand(nbr: seq<seq<nat>>, frontier: seq<nat>, hop: nat, known: map<nat, nat>)
    returns (dist: map<nat, nat>, nxt: seq<nat>)
    requires Indexed(nbr, frontier)
    ensures Adding(nbr, frontier, |frontier|, [], 0, hop, known, dist, nxt)
  {
    dist, nxt := known, [];
    for f := 0 to |frontier|
      invariant Adding(nbr, frontier, f, [], 0, hop, known, dist, nxt)
    {
      var here := nbr[frontier[f]];
      for m := 0 to |here|
        invariant Adding(nbr, frontier, f, here, m, hop, known, dist, nxt)
      {
        var v := here[m];
        assert here[..m + 1] == here[..m] + [v];
        if v !in dist {
          dist := dist[v := hop];
          nxt := nxt + [v];
        }
      }
      assert here[..|here|] == here;
    }
  }

  // One layer turns the vertices at distance hop - 1 into those at distance hop.
  lemma LayerStep(edges: Edges, nbr: seq<seq<nat>>, src: nat, frontier: seq<nat>, hop: nat,
      known: map<nat, nat>, dist: map<nat, nat>, nxt: seq<nat>)
    requires Lists(nbr, edges) && hop > 0 && Indexed(nbr, frontier)
    requires Within(edges, src, known, hop) && Layer(edges, src, frontier, hop - 1)
    requires Adding(nbr, frontier, |frontier|, [], 0, hop, known, dist, nxt)
    ensures Within(edges, src, dist, hop + 1) && Layer(edges, src, nxt, hop)
    ensures Indexed(nbr, nxt)
  {
    hide IsDistance, Lists, Met;
    forall v: nat ensures v in nxt <==> IsDistance(edges, src, v, hop) {
      NextExactly(edges, nbr, src, frontier, hop, known, dist, nxt, v);
    }
    forall i | 0 <= i < |nxt| ensures nxt[i] < |nbr| {
      assert nxt[i] in nxt;
      NextExactly(edges, nbr, src, frontier, hop, known, dist, nxt, nxt[i]);
    }
    forall v: nat, d: nat ensures v in dist && dist[v] == d <==> d < hop + 1 && IsDistance(edges, src, v, d) {
      DistExactly(edges, nbr, src, frontier, hop, known, dist, nxt, v, d);
    }
  }

  lemma WithinAt(edges: Edges, src: nat, dist: map<nat, nat>, hop: nat, v: nat, d: nat)
    requires Within(edges, src, dist, hop)
    ensures v in dist && dist[v] == d <==> d < hop && IsDistance(edges, src, v, d)
  {
    var there := IsDistance(edges, src, v, d);
    hide IsDistance;
    assert v in dist && dist[v] == d <==> d < hop && there;
  }

  lemma DistExactly(edges: Edges, nbr: seq<seq<nat>>, src: nat, frontier: seq<nat>, hop: nat,
      known: map<nat, nat>, dist: map<nat, nat>, nxt: seq<nat>, v: nat, d: nat)
    requires Lists(nbr, edges) && hop > 0 && Indexed(nbr, frontier)
    requires Within(edges, src, known, hop) && Layer(edges, src, frontier, hop - 1)
    requires Adding(nbr, frontier, |frontier|, [], 0, hop, known, dist, nxt)
    ensures v in dist && dist[v] == d <==> d < hop + 1 && IsDistance(edges, src, v, d)
  {
    hide IsDistance, Met, Layer, Lists, Within;
    NextExactly(edges, nbr, src, frontier, hop, known, dist, nxt, v);
    WithinAt(edges, src, known, hop, v, d);
    if v in known {
      WithinAt(edges, src, known, hop, v, known[v]);
    }
    assert v in dist <==> v in known || v in nxt;
    assert v in dist ==> dist[v] == if v in known then known[v] else hop;
    if IsDistance(edges, src, v, hop) && IsDistance(edges, src, v, d) {
      DistanceUnique(edges, src, v, hop, d);
    }
  }

  lemma NextExactly(edges: Edges, nbr: seq<seq<nat>>, src: nat, frontier: seq<nat>, hop: nat,
      known: map<nat, nat>, dist: map<nat, nat>, nxt: seq<nat>, v: nat)
    requires Lists(nbr, edges) && hop > 0 && Indexed(nbr, frontier)
    requires Within(edges, src, known, hop) && Layer(edges, src, frontier, hop - 1)
    requires Adding(nbr, frontier, |frontier|, [], 0, hop, known, dist, nxt)
    ensures v in nxt ==> v < |nbr|
    ensures v in nxt <==> IsDistance(edges, src, v, hop)
  {
    assert v in nxt <==> v !in known && Met(nbr, frontier, |frontier|, [], 0, v);
    hide IsDistance, Met, Within, Layer, Adding, Lists;
    if v in nxt {
      MetIsNext(edges, nbr, src, frontier, hop, known, v);
    }
    if IsDistance(edges, src, v, hop) {
      NextIsMet(edges, nbr, src, frontier, hop, known, v);
    }
  }

  lemma MetIsNext(edges: Edges, nbr: seq<seq<nat>>, src: nat, frontier: seq<nat>, hop: nat, known: map<nat, nat>,
                  v: nat)
    requires Lists(nbr, edges) && hop > 0 && Indexed(nbr, frontier)
    requires Within(edges, src, known, hop) && Layer(edges, src, frontier, hop - 1)
    requires v !in known && Met(nbr, frontier, |frontier|, [], 0, v)
    ensures IsDistance(edges, src, v, hop) && v < |nbr|
  {
    hide WalkOf;
    var i :| 0 <= i < |frontier| && v in nbr[frontier[i]];
    var u := frontier[i];
    assert IsDistance(edges, src, u, hop - 1);
    WalkOn(edges, src, u, v, hop - 1);
    var d := ShortestBelow(edges, src, v, hop);
    assert d < hop ==> v in known;
  }

  lemma NextIsMet(edges: Edges, nbr: seq<seq<nat>>, src: nat, frontier: seq<nat>, hop: nat, known: map<nat, nat>,
                  v: nat)
    requires Lists(nbr, edges) && hop > 0 && Indexed(nbr, frontier)
    requires Within(edges, src, known, hop) && Layer(edges, src, frontier, hop - 1)
    requires IsDistance(edges, src, v, hop)
    ensures v !in known && Met(nbr, frontier, |frontier|, [], 0, v)
  {
    hide IsDistance;
    if v in known {
      DistanceUnique(edges, src, v, hop, known[v]);
    }
    var u := DistanceBack(edges, src, v, hop - 1);
    assert u in frontier;
  }

  // The search records v at d exactly when d is the distance and at most depth.
  method Search(ghost edges: Edges, nbr: seq<seq<nat>>, src: nat, depth: nat) returns (dist: map<nat, nat>)
    requires src < |nbr| && Lists(nbr, edges)
    ensures Within(edges, src, dist, depth + 1)
  {
    dist := map[src := 0];
    var frontier: seq<nat> := [src];
    StartLayer(edges, src);
    for hop := 1 to depth + 1
      invariant Within(edges, src, dist, hop) && Layer(edges, src, frontier, hop - 1)
      invariant Indexed(nbr, frontier)
    {
      var nextDist, nxt := Expand(nbr, frontier, hop, dist);
      LayerStep(edges, nbr, src, frontier, hop, dist, nextDist, nxt);
      dist, frontier := nextDist, nxt;
    }
  }

  lemma StartLayer(edges: Edges, src: nat)
    ensures Within(edges, src, map[src := 0], 1) && Layer(edges, src, [src], 0)
  {
    WalkHere(edges, src);
    forall v: nat ensures IsDistance(edges, src, v, 0) <==> v == src {
    }
  }

  predicate Holds(table: map<(nat, nat), nat>, i: nat, j: nat, d: nat) {
    (i, j) in table && table[(i, j)] == d
  }

  // The hop table: (i, j) stands at d exactly when d is their distance and 1 <= d <= depth.
  ghost predicate HopTableOf(edges: Edges, n: nat, depth: nat, table: map<(nat, nat), nat>) {
    forall i: nat, j: nat, d: nat :: Holds(table, i, j, d) <==>
      i < n && 1 <= d <= depth && IsDistance(edges, i, j, d)
  }

  // The rows before src, and those vertices of row src that are no longer to do.
  ghost predicate RowsTo(before: map<(nat, nat), nat>, src: nat, dist: map<nat, nat>, todo: set<nat>,
      table: map<(nat, nat), nat>)
  {
    forall i: nat, j: nat, d: nat :: Holds(table, i, j, d) <==>
      Holds(before, i, j, d) || (i == src && j in dist && j !in todo && dist[j] == d && d > 0)
  }

  lemma PutHolds(table: map<(nat, nat), nat>, a: nat, b: nat, k: nat, table': map<(nat, nat), nat>)
    requires table' == table[(a, b) := k]
    ensures forall i: nat, j: nat, d: nat :: Holds(table', i, j, d) <==>
      (i == a && j == b && d == k) || (!(i == a && j == b) && Holds(table, i, j, d))
  {
    forall i: nat, j: nat, d: nat
      ensures Holds(table', i, j, d) <==> (i == a && j == b && d == k) || (!(i == a && j == b) && Holds(table, i, j, d))
    {
      assert (i, j) == (a, b) <==> i == a && j == b;
    }
  }

  method AddRow(src: nat, dist: map<nat, nat>, before: map<(nat, nat), nat>) returns (table: map<(nat, nat), nat>)
    requires forall i: nat, j: nat, d: nat :: Holds(before, i, j, d) ==> i < src
    ensures RowsTo(before, src, dist, {}, table)
  {
    table := before;
    var todo := dist.Keys;
    while todo != {}
      decreases |todo|
      invariant todo <= dist.Keys
      invariant RowsTo(before, src, dist, todo, table)
    {
      var v :| v in todo;
      todo := todo - {v};
      if dist[v] > 0 {
        PutHolds(table, src, v, dist[v], table[(src, v) := dist[v]]);
        table := table[(src, v) := dist[v]];
      }
    }
  }

  // All sources: what the suite compares the untangler's own hop table with.
  method HopTable(n: nat, adjI: seq<nat>, adjJ: seq<nat>, depth: nat) returns (table: map<(nat, nat), nat>)
    requires |adjI| == |adjJ| && (forall i :: i in adjI ==> i < n) && (forall j :: j in adjJ ==> j < n)
    ensures HopTableOf(EdgesOf(adjI, adjJ), n, depth, table)
    ensures forall i: nat, j: nat, d: nat :: Holds(table, i, j, d) <==>
      i < n && 1 <= d <= depth && Hops(adjI, adjJ, i, j, d)
  {
    hide IsDistance, Lists, Hops;
    ghost var edges := EdgesOf(adjI, adjJ);
    var nbr := NeighbourLists(n, adjI, adjJ);
    table := map[];
    for src := 0 to n
      invariant HopTableOf(edges, src, depth, table)
    {
      var dist := Search(edges, nbr, src, depth);
      var rows := AddRow(src, dist, table);
      RowAdded(edges, src, depth, dist, table, rows);
      table := rows;
    }
    TableByHops(adjI, adjJ, n, depth, table);
  }

  lemma TableByHops(adjI: seq<nat>, adjJ: seq<nat>, n: nat, depth: nat, table: map<(nat, nat), nat>)
    requires |adjI| == |adjJ| && HopTableOf(EdgesOf(adjI, adjJ), n, depth, table)
    ensures forall i: nat, j: nat, d: nat :: Holds(table, i, j, d) <==>
      i < n && 1 <= d <= depth && Hops(adjI, adjJ, i, j, d)
  {
    hide Hops, IsDistance, EdgesOf, Holds;
    forall i: nat, j: nat, d: nat
      ensures Holds(table, i, j, d) <==> i < n && 1 <= d <= depth && Hops(adjI, adjJ, i, j, d)
    {
      HopsAre(adjI, adjJ, i, j, d);
    }
  }

  lemma RowAdded(edges: Edges, src: nat, depth: nat, dist: map<nat, nat>, before: map<(nat, nat), nat>,
      table: map<(nat, nat), nat>)
    requires HopTableOf(edges, src, depth, before) && Within(edges, src, dist, depth + 1)
    requires RowsTo(before, src, dist, {}, table)
    ensures HopTableOf(edges, src + 1, depth, table)
  {
    hide IsDistance, Holds;
    forall i: nat, j: nat, d: nat
      ensures Holds(table, i, j, d) <==> i < src + 1 && 1 <= d <= depth && IsDistance(edges, i, j, d)
    {
      assert Holds(table, i, j, d) <==> Holds(before, i, j, d) || (i == src && j in dist && dist[j] == d && d > 0);
      assert (j in dist && dist[j] == d) <==> d < depth + 1 && IsDistance(edges, src, j, d);
      assert Holds(before, i, j, d) <==> i < src && 1 <= d <= depth && IsDistance(edges, i, j, d);
    }
  }

  // Where edges run both ways the table does too.
  lemma HopTableSymmetric(edges: Edges, n: nat, depth: nat, table: map<(nat, nat), nat>, i: nat, j: nat, d: nat)
    requires HopTableOf(edges, n, depth, table) && (forall u: nat, v: nat :: (u, v) in edges ==> (v, u) in edges)
    requires Holds(table, i, j, d) && j < n
    ensures Holds(table, j, i, d)
  {
    hide IsDistance, Holds;
    DistanceReversed(edges, i, j, d);
  }

  lemma WalkReversed(edges: Edges, s: nat, v: nat, d: nat)
    requires WalkOf(edges, s, v, d) && (forall u: nat, v: nat :: (u, v) in edges ==> (v, u) in edges)
    ensures WalkOf(edges, v, s, d)
  {
    var p :| IsWalk(edges, p) && |p| == d + 1 && p[0] == s && p[d] == v;
    var r := seq(d + 1, i requires 0 <= i < d + 1 => p[d - i]);
    forall i | 0 <= i < d ensures (r[i], r[i + 1]) in edges {
      assert (p[d - i - 1], p[d - i - 1 + 1]) in edges;
    }
    assert IsWalk(edges, r);
  }

  lemma DistanceReversed(edges: Edges, s: nat, v: nat, d: nat)
    requires IsDistance(edges, s, v, d) && (forall u: nat, v: nat :: (u, v) in edges ==> (v, u) in edges)
    ensures IsDistance(edges, v, s, d)
  {
    hide WalkOf;
    WalkReversed(edges, s, v, d);
    forall e: nat | e < d ensures !WalkOf(edges, v, s, e) {
      if WalkOf(edges, v, s, e) {
        WalkReversed(edges, v, s, e);
      }
    }
  }

  // ---- Flood fill over a cluster --------------------------------------------------------

  type Neighbours = map<nat, seq<nat>>

  predicate Linked(nbr: Neighbours, u: nat, v: nat) {
    u in nbr && v in nbr[u]
  }

  ghost predicate Records(nbr: Neighbours, edges: Edges) {
    forall u: nat, v: nat :: Linked(nbr, u, v) <==> (u, v) in edges
  }

  method NeighbourMap(adjI: seq<nat>, adjJ: seq<nat>) returns (nbr: Neighbours)
    requires |adjI| == |adjJ|
    ensures Records(nbr, EdgesOf(adjI, adjJ))
    ensures forall u: nat, v: nat :: Linked(nbr, u, v) <==> Paired(adjI, adjJ, u, v)
  {
    nbr := map[];
    for k := 0 to |adjI|
      invariant forall u: nat, v: nat :: Linked(nbr, u, v) <==> exists m :: 0 <= m < k && adjI[m] == u && adjJ[m] == v
    {
      ghost var before := nbr;
      nbr := nbr[adjI[k] := (if adjI[k] in nbr then nbr[adjI[k]] else []) + [adjJ[k]]];
      assert forall u: nat, v: nat :: Linked(nbr, u, v) <==> Linked(before, u, v) || (u == adjI[k] && v == adjJ[k]);
    }
  }

  // The edges that stay among the members.
  ghost function Inside(edges: Edges, members: set<nat>): Edges {
    set e | e in edges && e.0 in members && e.1 in members
  }

  // Nothing outside seen can be stepped to from a seen vertex that is not on the stack.
  ghost predicate Settled(inside: Edges, seen: set<nat>, stack: seq<nat>) {
    forall u: nat, v: nat :: (u, v) in inside && u in seen && u !in stack ==> v in seen
  }

  ghost predicate AllReached(inside: Edges, start: nat, seen: set<nat>) {
    forall v: nat :: v in seen ==> Reaches(inside, start, v)
  }

  method Push(nbr: Neighbours, members: set<nat>, ghost edges: Edges, ghost start: nat, u: nat,
      seen0: set<nat>, rest: seq<nat>)
    returns (seen: set<nat>, stack: seq<nat>)
    requires Records(nbr, edges) && u in seen0 && seen0 <= members
    requires AllReached(Inside(edges, members), start, seen0)
    requires Settled(Inside(edges, members), seen0, rest + [u]) && forall v :: v in rest ==> v in seen0
    ensures seen0 <= seen <= members && (seen == seen0 ==> stack == rest) && forall v :: v in stack ==> v in seen
    ensures AllReached(Inside(edges, members), start, seen) && Settled(Inside(edges, members), seen, stack)
  {
    hide Reaches;
    ghost var inside := Inside(edges, members);
    seen, stack := seen0, rest;
    var here := if u in nbr then nbr[u] else [];
    for m := 0 to |here|
      invariant seen0 <= seen <= members && (seen == seen0 ==> stack == rest)
      invariant forall v :: v in stack ==> v in seen
      invariant forall v :: v in rest || (v in seen && v !in seen0) ==> v in stack
      invariant forall k :: 0 <= k < m && here[k] in members ==> here[k] in seen
      invariant AllReached(inside, start, seen)
    {
      var w := here[m];
      if w in members && w !in seen {
        assert (u, w) in inside;
        StepReached(inside, start, u, w);
        seen := seen + {w};
        stack := stack + [w];
      }
    }
    assert forall v: nat :: (u, v) in inside ==> Linked(nbr, u, v);
  }

  lemma StepReached(edges: Edges, s: nat, u: nat, v: nat)
    requires Reaches(edges, s, u) && (u, v) in edges
    ensures Reaches(edges, s, v)
  {
    hide WalkOf;
    var d: nat :| WalkOf(edges, s, u, d);
    WalkOn(edges, s, u, v, d);
  }

  // A closed set holding the start holds everything the start reaches.
  lemma {:induction false} ClosedHolds(edges: Edges, seen: set<nat>, s: nat, v: nat, d: nat)
    requires s in seen && WalkOf(edges, s, v, d)
    requires forall u: nat, w: nat :: (u, w) in edges && u in seen ==> w in seen
    ensures v in seen
    decreases d
  {
    if d > 0 {
      var u := WalkBack(edges, s, v, d - 1);
      ClosedHolds(edges, seen, s, u, d - 1);
    }
  }

  // The fill ends with exactly the vertices reachable from the start inside the members.
  method FloodFill(nbr: Neighbours, members: set<nat>, start: nat, ghost edges: Edges) returns (seen: set<nat>)
    requires start in members && Records(nbr, edges)
    ensures forall v: nat :: v in seen <==> Reaches(Inside(edges, members), start, v)
    ensures seen <= members
  {
    ghost var inside := Inside(edges, members);
    seen := {start};
    var stack := [start];
    WalkHere(inside, start);
    assert Reaches(inside, start, start);
    hide Reaches;
    while stack != []
      invariant start in seen && seen <= members
      invariant forall v :: v in stack ==> v in seen
      invariant AllReached(inside, start, seen) && Settled(inside, seen, stack)
      decreases |members| - |seen|, |stack|
    {
      var u := stack[|stack| - 1];
      var rest := stack[..|stack| - 1];
      assert rest + [u] == stack;
      ghost var before := seen;
      seen, stack := Push(nbr, members, edges, start, u, seen, rest);
      SmallerSet(before, seen);
      SmallerSet(seen, members);
    }
    ReachedHeld(inside, seen, start);
  }

  lemma SmallerSet(a: set<nat>, b: set<nat>)
    requires a <= b
    ensures |a| <= |b| && (|a| == |b| ==> a == b)
  {
    assert b == a + (b - a);
  }

  lemma ReachedHeld(inside: Edges, seen: set<nat>, start: nat)
    requires start in seen && Settled(inside, seen, [])
    ensures forall v: nat :: Reaches(inside, start, v) ==> v in seen
  {
    forall v: nat | Reaches(inside, start, v) ensures v in seen {
      var d: nat :| WalkOf(inside, start, v, d);
      ClosedHolds(inside, seen, start, v, d);
    }
  }

  // The suite's verdict: over two-way edges the fill covers the members exactly when
  // every two members are joined by a walk that stays among them.
  method ClusterIsConnected(nbr: Neighbours, members: set<nat>, ghost edges: Edges) returns (ok: bool)
    requires members != {} && Records(nbr, edges)
    requires forall u: nat, v: nat :: (u, v) in edges ==> (v, u) in edges
    ensures ok <==> forall s: nat, v: nat :: s in members && v in members ==> Reaches(Inside(edges, members), s, v)
  {
    var start :| start in members;
    var seen := FloodFill(nbr, members, start, edges);
    ok := seen == members;
    if ok {
      AllJoined(Inside(edges, members), members, start);
    }
  }

  lemma AllJoined(edges: Edges, members: set<nat>, start: nat)
    requires forall v: nat :: v in members ==> Reaches(edges, start, v)
    requires forall u: nat, v: nat :: (u, v) in edges ==> (v, u) in edges
    ensures forall s: nat, v: nat :: s in members && v in members ==> Reaches(edges, s, v)
  {
    forall s: nat, v: nat | s in members && v in members ensures Reaches(edges, s, v) {
      var d: nat :| WalkOf(edges, start, s, d);
      var e: nat :| WalkOf(edges, start, v, e);
      WalkReversed(edges, start, s, d);
      WalksJoin(edges, s, start, v, d, e);
    }
  }

  lemma WalksJoin(edges: Edges, s: nat, u: nat, v: nat, d: nat, e: nat)
    requires WalkOf(edges, s, u, d) && WalkOf(edges, u, v, e)
    ensures WalkOf(edges, s, v, d + e)
  {
    var p :| IsWalk(edges, p) && |p| == d + 1 && p[0] == s && p[d] == u;
    var q :| IsWalk(edges, q) && |q| == e + 1 && q[0] == u && q[e] == v;
    var r := p + q[1..];
    forall i | 0 <= i < d + e ensures (r[i], r[i + 1]) in edges {
      if i < d {
        assert (p[i], p[i + 1]) in edges;
      } else {
        assert (q[i - d], q[i - d + 1]) in edges;
      }
    }
    assert IsWalk(edges, r);
  }
}
