/** The weighted search of the semantic graph: a recursive query that extends cycle-free
    paths level by level, and the walks it stands for. */
module SemanticGraph {
  import opened Basics

  type NodeId = nat

  datatype Edge = Edge(source: NodeId, target: NodeId, kind: string, weight: real)

  /** The parameters of one expansion; an empty type list means no filter. */
  datatype Query = Query(start: NodeId, maxDepth: int, kinds: set<string>, minWeight: real)

  predicate Usable(q: Query, e: Edge) {
    e.weight >= q.minWeight && (q.kinds == {} || e.kind in q.kinds)
  }

  /** One row of the recursive query. */
  datatype Row = Row(node: NodeId, kind: string, weight: real, depth: nat, path: seq<NodeId>)

  function BaseRow(e: Edge): Row {
    Row(e.target, e.kind, e.weight, 1, [e.source, e.target])
  }

  function NextRow(e: Edge, row: Row): Row {
    Row(e.target, e.kind, e.weight * row.weight, row.depth + 1, row.path + [e.target])
  }

  predicate Starts(edges: set<Edge>, q: Query, e: Edge) {
    e in edges && e.source == q.start && Usable(q, e)
  }

  predicate Continues(edges: set<Edge>, q: Query, row: Row, e: Edge) {
    e in edges && e.source == row.node && Usable(q, e) && e.target !in row.path
  }

  /** The rows of one depth: the base term, then the recursive term. */
  function Level(edges: set<Edge>, q: Query, depth: nat): set<Row>
    requires depth >= 1
    decreases depth
  {
    if depth == 1 then set e | e in edges && Starts(edges, q, e) :: BaseRow(e)
    else Extended(edges, q, Level(edges, q, depth - 1))
  }

  function Extended(edges: set<Edge>, q: Query, rows: set<Row>): set<Row> {
    set row, e | row in rows && e in edges && Continues(edges, q, row, e) :: NextRow(e, row)
  }

  /** The base term ignores max_depth, so at least one level is always explored. */
  function Reach(q: Query): nat {
    if q.maxDepth < 1 then 1 else q.maxDepth
  }

  predicate Explored(edges: set<Edge>, q: Query, row: Row) {
    1 <= row.depth <= Reach(q) && row in Level(edges, q, row.depth)
  }

  /** `SELECT DISTINCT ON (node_id) ... ORDER BY node_id, weight DESC`, before the LIMIT:
      one row for each node found, of maximal weight; ties may fall either way. */
  ghost predicate Reported(edges: set<Edge>, q: Query, out: set<Row>) {
    && (forall r :: r in out ==> Explored(edges, q, r))
    && (forall r, s :: r in out && s in out && r.node == s.node ==> r == s)
    && (forall row: Row {:trigger Beaten(out, row)} :: Explored(edges, q, row) ==> Beaten(out, row))
  }

  ghost predicate Beaten(out: set<Row>, row: Row) {
    exists r :: r in out && r.node == row.node && r.weight >= row.weight
  }

  // ------------------------------------------------------------------
  // Walks
  // ------------------------------------------------------------------

  function Last(w: seq<Edge>): Edge
    requires w != []
  {
    w[|w| - 1]
  }

  function Init(w: seq<Edge>): seq<Edge>
    requires w != []
  {
    w[..|w| - 1]
  }

  function End(q: Query, w: seq<Edge>): NodeId {
    if w == [] then q.start else Last(w).target
  }

  /** A walk of usable edges from the start node. */
  ghost predicate Walk(edges: set<Edge>, q: Query, w: seq<Edge>) {
    w != [] ==>
      && Walk(edges, q, Init(w))
      && Last(w) in edges && Usable(q, Last(w)) && Last(w).source == End(q, Init(w))
  }

  function Product(w: seq<Edge>): real {
    if w == [] then 1.0 else Last(w).weight * Product(Init(w))
  }

  /** The nodes a walk visits, the start first. */
  function Visits(q: Query, w: seq<Edge>): seq<NodeId> {
    if w == [] then [q.start] else Visits(q, Init(w)) + [Last(w).target]
  }

  /** No edge after the first one leads back to a visited node. */
  ghost predicate CycleFree(q: Query, w: seq<Edge>) {
    |w| > 1 ==> CycleFree(q, Init(w)) && Last(w).target !in Visits(q, Init(w))
  }

  predicate UnitWeights(edges: set<Edge>) {
    forall e :: e in edges ==> 0.0 <= e.weight <= 1.0
  }

  predicate NonNegative(edges: set<Edge>, q: Query) {
    forall e :: e in edges && Usable(q, e) ==> 0.0 <= e.weight
  }

  /** A walk from another node under the same filters. */
  ghost predicate WalkFrom(edges: set<Edge>, q: Query, n: NodeId, w: seq<Edge>) {
    Walk(edges, q.(start := n), w)
  }

  lemma {:induction false} ProductSign(edges: set<Edge>, q: Query, w: seq<Edge>)
    requires NonNegative(edges, q) && Walk(edges, q, w)
    ensures Product(w) >= 0.0
  {
    if w != [] {
      ProductSign(edges, q, Init(w));
      ScaleUp(0.0, Product(Init(w)), Last(w).weight);
    }
  }

  lemma {:induction false} ScaleUp(x: real, z: real, y: real)
    requires z >= x && y >= 0.0
    ensures y * z >= y * x
  {
    assert y * (z - x) >= 0.0;
  }

  lemma {:induction false} InitOfSum(v: seq<Edge>, w: seq<Edge>)
    requires w != []
    ensures v + w != [] && Init(v + w) == v + Init(w) && Last(v + w) == Last(w)
  {
  }

  lemma {:induction false} ProductOfSum(v: seq<Edge>, w: seq<Edge>)
    ensures Product(v + w) == Product(v) * Product(w)
  {
    if w == [] {
      assert v + w == v;
    } else {
      InitOfSum(v, w);
      ProductOfSum(v, Init(w));
      Rearranged(Last(w).weight, Product(v), Product(Init(w)));
    }
  }

  lemma {:induction false} Rearranged(x: real, y: real, z: real)
    ensures x * (y * z) == y * (x * z)
  {
  }

  /** A walk can be cut anywhere, and walks that meet can be joined. */
  lemma {:induction false} WalkOfSum(edges: set<Edge>, q: Query, v: seq<Edge>, w: seq<Edge>)
    ensures Walk(edges, q, v + w) <==> Walk(edges, q, v) && WalkFrom(edges, q, End(q, v), w)
    ensures End(q, v + w) == End(q.(start := End(q, v)), w)
  {
    if w == [] {
      assert v + w == v;
    } else {
      InitOfSum(v, w);
      WalkOfSum(edges, q, v, Init(w));
    }
  }

  /** The depth bound is no matter for walks. */
  lemma {:induction false} AnyDepth(edges: set<Edge>, q: Query, d: int, w: seq<Edge>)
    ensures Walk(edges, q.(maxDepth := d), w) <==> Walk(edges, q, w)
    ensures End(q.(maxDepth := d), w) == End(q, w)
  {
    if w != [] {
      AnyDepth(edges, q, d, Init(w));
    }
  }

  // ------------------------------------------------------------------
  // Rows and cycle-free walks are the same thing
  // ------------------------------------------------------------------

  /** The row a walk stands for. */
  ghost predicate Records(q: Query, w: seq<Edge>, row: Row) {
    && row.node == End(q, w) && row.weight == Product(w) && row.depth == |w| && row.path == Visits(q, w)
    && (w != [] ==> row.kind == Last(w).kind)
  }

  lemma {:induction false} OneEdge(q: Query, e: Edge)
    ensures Product([]) == 1.0 && Product([e]) == e.weight && Visits(q, [e]) == [q.start, e.target]
    ensures Init([e]) == [] && Last([e]) == e
  {
    var none: seq<Edge> := [];
    assert Init([e]) == none;
    assert Product(none) == 1.0;
    assert Visits(q, none) + [e.target] == [q.start, e.target];
  }

  lemma {:induction false} Extend(v: seq<Edge>, e: Edge)
    ensures Init(v + [e]) == v && Last(v + [e]) == e
  {
  }

  lemma {:induction false} RowHasWalk(edges: set<Edge>, q: Query, depth: nat, row: Row) returns (w: seq<Edge>)
    requires depth >= 1 && row in Level(edges, q, depth)
    ensures Walk(edges, q, w) && |w| == depth && CycleFree(q, w) && Records(q, w, row)
  {
    if depth == 1 {
      var e :| Starts(edges, q, e) && row == BaseRow(e);
      w := [e];
      OneEdge(q, e);
      assert Starts(edges, q, e);
    } else {
      var prev, e :| prev in Level(edges, q, depth - 1) && Continues(edges, q, prev, e) && row == NextRow(e, prev);
      var v := RowHasWalk(edges, q, depth - 1, prev);
      w := v + [e];
      NextWalk(edges, q, v, prev, e);
    }
  }

  lemma {:induction false} NextWalk(edges: set<Edge>, q: Query, v: seq<Edge>, prev: Row, e: Edge)
    requires Walk(edges, q, v) && v != [] && CycleFree(q, v) && Records(q, v, prev) && Continues(edges, q, prev, e)
    ensures Walk(edges, q, v + [e]) && CycleFree(q, v + [e]) && Records(q, v + [e], NextRow(e, prev))
  {
    Extend(v, e);
  }

  lemma {:induction false} WalkHasRow(edges: set<Edge>, q: Query, w: seq<Edge>) returns (row: Row)
    requires w != [] && Walk(edges, q, w) && CycleFree(q, w)
    ensures row in Level(edges, q, |w|) && Records(q, w, row)
  {
    var e := Last(w);
    if |w| == 1 {
      row := BaseRow(e);
      OneEdge(q, e);
      assert w == [e];
      assert Starts(edges, q, e);
    } else {
      var prev := WalkHasRow(edges, q, Init(w));
      row := NextRow(e, prev);
      assert Continues(edges, q, prev, e);
    }
  }

  // ------------------------------------------------------------------
  // The same edge by edge
  // ------------------------------------------------------------------

  ghost predicate Follows(edges: set<Edge>, q: Query, w: seq<Edge>) {
    forall i :: 0 <= i < |w| ==> EdgeOk(edges, q, w, i)
  }

  /** An edge of the graph, at least as heavy as asked for and of one of the types asked for if there
      are any, from the start or from the end of the edge before it. */
  ghost predicate EdgeOk(edges: set<Edge>, q: Query, w: seq<Edge>, i: nat)
    requires i < |w|
  {
    && w[i] in edges && w[i].weight >= q.minWeight && (q.kinds != {} ==> w[i].kind in q.kinds)
    && w[i].source == if i == 0 then q.start else w[i - 1].target
  }

  /** No edge but the first leads to the start, and no two edges to the same node. */
  ghost predicate NeverBack(q: Query, w: seq<Edge>) {
    && (forall i :: 0 < i < |w| ==> w[i].target != q.start)
    && (forall i, j :: 0 <= i < j < |w| ==> w[i].target != w[j].target)
  }

  /** The nodes on the way. */
  function Stops(q: Query, w: seq<Edge>): seq<NodeId> {
    [q.start] + seq(|w|, i requires 0 <= i < |w| => w[i].target)
  }

  lemma {:induction false} WalkFollows(edges: set<Edge>, q: Query, w: seq<Edge>)
    ensures Walk(edges, q, w) <==> Follows(edges, q, w)
  {
    if w != [] {
      WalkFollows(edges, q, Init(w));
      FollowsStep(edges, q, Init(w), Last(w));
      assert w == Init(w) + [Last(w)];
    }
  }

  lemma {:induction false} FollowsStep(edges: set<Edge>, q: Query, v: seq<Edge>, e: Edge)
    ensures Follows(edges, q, v + [e]) <==>
            && Follows(edges, q, v) && e in edges && e.weight >= q.minWeight && (q.kinds != {} ==> e.kind in q.kinds)
            && e.source == End(q, v)
  {
    var w := v + [e];
    assert w[|v|] == e && (v != [] ==> w[|v| - 1] == Last(v));
    assert forall i :: 0 <= i < |v| ==> w[i] == v[i];
    if Follows(edges, q, w) {
      forall i | 0 <= i < |v| ensures EdgeOk(edges, q, v, i) {
        assert EdgeOk(edges, q, w, i);
      }
      assert EdgeOk(edges, q, w, |v|);
    }
    if Follows(edges, q, v) && EdgeOk(edges, q, w, |v|) {
      forall i | 0 <= i < |w| ensures EdgeOk(edges, q, w, i) {
        assert i < |v| ==> EdgeOk(edges, q, v, i);
      }
    }
  }

  lemma {:induction false} VisitsStops(q: Query, w: seq<Edge>)
    ensures Visits(q, w) == Stops(q, w)
  {
    if w != [] {
      VisitsStops(q, Init(w));
    }
  }

  lemma {:induction false} CycleFreeNeverBack(q: Query, w: seq<Edge>)
    ensures CycleFree(q, w) <==> NeverBack(q, w)
  {
    if |w| > 1 {
      var v, e := Init(w), Last(w);
      CycleFreeNeverBack(q, v);
      VisitsStops(q, v);
      StopsAre(q, v, e.target);
      NeverBackStep(q, v, e);
      assert w == v + [e];
    }
  }

  lemma {:induction false} StopsAre(q: Query, v: seq<Edge>, t: NodeId)
    ensures t in Stops(q, v) <==> t == q.start || exists i :: 0 <= i < |v| && v[i].target == t
  {
    if i :| 0 <= i < |v| && v[i].target == t {
      assert Stops(q, v)[i + 1] == t;
    }
  }

  lemma {:induction false} NeverBackStep(q: Query, v: seq<Edge>, e: Edge)
    requires v != []
    ensures NeverBack(q, v + [e]) <==>
            NeverBack(q, v) && e.target != q.start && forall i :: 0 <= i < |v| ==> v[i].target != e.target
  {
    var w := v + [e];
    assert forall i :: 0 <= i < |v| ==> w[i] == v[i];
    assert w[|v|] == e;
  }

  /** What a row of the search is, edge by edge: within the depth bound, or of one edge whatever
      the bound, it is a walk that never comes back, and each such walk is a row. */
  lemma {:induction false} RowsAreWalks(edges: set<Edge>, q: Query, row: Row)
    ensures Explored(edges, q, row) <==> exists w :: RowOf(edges, q, w, row)
  {
    if Explored(edges, q, row) {
      var w := RowHasWalk(edges, q, row.depth, row);
      WalkFollows(edges, q, w);
      CycleFreeNeverBack(q, w);
      VisitsStops(q, w);
      assert RowOf(edges, q, w, row);
    }
    if w :| RowOf(edges, q, w, row) {
      WalkFollows(edges, q, w);
      CycleFreeNeverBack(q, w);
      VisitsStops(q, w);
      var same := WalkHasRow(edges, q, w);
      assert same == row;
    }
  }

  ghost predicate RowOf(edges: set<Edge>, q: Query, w: seq<Edge>, row: Row) {
    && (|w| == 1 || 1 < |w| <= q.maxDepth) && Follows(edges, q, w) && NeverBack(q, w)
    && row == Row(w[|w| - 1].target, w[|w| - 1].kind, Product(w), |w|, Stops(q, w))
  }

  // ------------------------------------------------------------------
  // Loop erasure
  // ------------------------------------------------------------------

  /** Two walks around a closed stretch that multiplies weights by more than 1: the way to it,
      with some weight, and a way on to a node other than the start. */
  ghost predicate Gain(edges: set<Edge>, q: Query, x: seq<Edge>, c: seq<Edge>, y: seq<Edge>) {
    && Walk(edges, q, x) && Product(x) > 0.0
    && WalkFrom(edges, q, End(q, x), c) && End(q.(start := End(q, x)), c) == End(q, x) && Product(c) > 1.0
    && WalkFrom(edges, q, End(q, x), y) && Product(y) > 0.0
    && End(q.(start := End(q, x)), y) != q.start
  }

  /** No such stretch on any walk of at most n edges. */
  ghost predicate NoGain(edges: set<Edge>, q: Query, n: nat) {
    forall x, c, y :: Gain(edges, q, x, c, y) ==> |x| + |c| + |y| > n
  }

  lemma {:induction false} VisitedAt(q: Query, w: seq<Edge>, t: NodeId) returns (k: nat)
    requires t in Visits(q, w)
    ensures k <= |w| && End(q, w[..k]) == t
  {
    if w == [] {
      k := 0;
    } else if Last(w).target == t {
      k := |w|;
      assert w[..k] == w;
    } else {
      k := VisitedAt(q, Init(w), t);
      assert Init(w)[..k] == w[..k];
    }
  }

  /** A walk that is not cycle-free contains a closed stretch. */
  lemma {:induction false} LoopIn(q: Query, w: seq<Edge>) returns (i: nat, j: nat)
    requires !CycleFree(q, w)
    ensures i < j <= |w| && End(q, w[..i]) == End(q, w[..j])
  {
    if !CycleFree(q, Init(w)) {
      i, j := LoopIn(q, Init(w));
      assert Init(w)[..i] == w[..i] && Init(w)[..j] == w[..j];
    } else {
      j := |w|;
      i := VisitedAt(q, Init(w), Last(w).target);
      assert Init(w)[..i] == w[..i] && w[..j] == w;
    }
  }

  /** Taking a closed stretch out leaves a walk to the same node. */
  lemma {:induction false} Shorten(edges: set<Edge>, q: Query, x: seq<Edge>, c: seq<Edge>, y: seq<Edge>)
    requires Walk(edges, q, x + c + y) && End(q, x + c) == End(q, x)
    ensures Walk(edges, q, x + y) && End(q, x + y) == End(q, x + c + y)
    ensures Walk(edges, q, x) && WalkFrom(edges, q, End(q, x), c) && WalkFrom(edges, q, End(q, x), y)
    ensures End(q.(start := End(q, x)), c) == End(q, x)
    ensures End(q.(start := End(q, x)), y) == End(q, x + c + y)
  {
    WalkOfSum(edges, q, x + c, y);
    WalkOfSum(edges, q, x, c);
    WalkOfSum(edges, q, x, y);
  }

  predicate Times(p: real, x: real, y: real) {
    p == x * y
  }

  predicate TimesThree(p: real, x: real, c: real, y: real) {
    p == x * c * y
  }

  lemma {:induction false} ProductOfTwo(x: seq<Edge>, y: seq<Edge>)
    ensures Times(Product(x + y), Product(x), Product(y))
  {
    ProductOfSum(x, y);
  }

  lemma {:induction false} ProductOfThree(x: seq<Edge>, c: seq<Edge>, y: seq<Edge>)
    ensures TimesThree(Product(x + c + y), Product(x), Product(c), Product(y))
  {
    ProductOfTwo(x + c, y);
    ProductOfTwo(x, c);
    ThreeFactors(Product(x), Product(c), Product(y), Product(x + c), Product(x + c + y));
  }

  lemma {:induction false} ThreeFactors(x: real, c: real, y: real, xc: real, p: real)
    requires Times(xc, x, c) && Times(p, xc, y)
    ensures TimesThree(p, x, c, y)
  {
  }

  /** p and s are the weights of a walk with and without a closed stretch of weight c. */
  lemma {:induction false} CutNumbers(p: real, x: real, c: real, y: real, s: real)
    requires TimesThree(p, x, c, y) && Times(s, x, y) && x >= 0.0 && c >= 0.0 && y >= 0.0
    ensures p > 0.0 ==> s > 0.0
    ensures c <= 1.0 || x == 0.0 || y == 0.0 ==> s >= p
  {
    assert p == c * s;
    ScaleUp(0.0, y, x);
    if x == 0.0 || y == 0.0 {
      assert s == 0.0;
    } else if c <= 1.0 {
      ScaleUp(c, 1.0, s);
    }
  }

  /** Cutting the loops out of a walk makes it no longer; with weights of one sign it keeps some
      weight if there was some, and unless a loop multiplies weights it makes the walk no lighter. */
  lemma {:induction false} LoopErasure(edges: set<Edge>, q: Query, w: seq<Edge>) returns (v: seq<Edge>)
    requires Walk(edges, q, w) && End(q, w) != q.start
    ensures Walk(edges, q, v) && CycleFree(q, v) && 1 <= |v| <= |w| && End(q, v) == End(q, w)
    ensures NonNegative(edges, q) && Product(w) > 0.0 ==> Product(v) > 0.0
    ensures NonNegative(edges, q) && NoGain(edges, q, |w|) ==> Product(v) >= Product(w)
    decreases |w|
  {
    if CycleFree(q, w) {
      v := w;
    } else {
      var i, j := LoopIn(q, w);
      var x, c, y := w[..i], w[i..j], w[j..];
      assert w == x + c + y && w[..j] == x + c;
      Shorten(edges, q, x, c, y);
      v := LoopErasure(edges, q, x + y);
      if NonNegative(edges, q) {
        CutWeights(edges, q, x, c, y);
      }
    }
  }

  lemma {:induction false} CutWeights(edges: set<Edge>, q: Query, x: seq<Edge>, c: seq<Edge>, y: seq<Edge>)
    requires NonNegative(edges, q) && Walk(edges, q, x + c + y) && End(q, x + c) == End(q, x)
    requires End(q, x + c + y) != q.start
    ensures Product(x + c + y) > 0.0 ==> Product(x + y) > 0.0
    ensures NoGain(edges, q, |x| + |c| + |y|) ==> Product(x + y) >= Product(x + c + y)
  {
    LoopWeights(edges, q, x, c, y);
    CutProducts(x, c, y);
  }

  lemma {:induction false} CutProducts(x: seq<Edge>, c: seq<Edge>, y: seq<Edge>)
    requires Product(x) >= 0.0 && Product(c) >= 0.0 && Product(y) >= 0.0
    ensures Product(x + c + y) > 0.0 ==> Product(x + y) > 0.0
    ensures Product(c) <= 1.0 || Product(x) == 0.0 || Product(y) == 0.0 ==> Product(x + y) >= Product(x + c + y)
  {
    ProductOfThree(x, c, y);
    ProductOfTwo(x, y);
    CutNumbers(Product(x + c + y), Product(x), Product(c), Product(y), Product(x + y));
  }

  lemma {:induction false} LoopWeights(edges: set<Edge>, q: Query, x: seq<Edge>, c: seq<Edge>, y: seq<Edge>)
    requires NonNegative(edges, q) && Walk(edges, q, x + c + y) && End(q, x + c) == End(q, x)
    requires End(q, x + c + y) != q.start
    ensures Product(x) >= 0.0 && Product(c) >= 0.0 && Product(y) >= 0.0
    ensures NoGain(edges, q, |x| + |c| + |y|) ==> Product(c) <= 1.0 || Product(x) == 0.0 || Product(y) == 0.0
  {
    Shorten(edges, q, x, c, y);
    Signs(edges, q, x, c, y);
    if NoGain(edges, q, |x| + |c| + |y|) {
      assert !Gain(edges, q, x, c, y);
    }
  }

  lemma {:induction false} Signs(edges: set<Edge>, q: Query, x: seq<Edge>, c: seq<Edge>, y: seq<Edge>)
    requires NonNegative(edges, q) && Walk(edges, q, x)
    requires WalkFrom(edges, q, End(q, x), c) && WalkFrom(edges, q, End(q, x), y)
    ensures Product(x) >= 0.0 && Product(c) >= 0.0 && Product(y) >= 0.0
  {
    ProductSign(edges, q, x);
    ProductSign(edges, q.(start := End(q, x)), c);
    ProductSign(edges, q.(start := End(q, x)), y);
  }

  // ------------------------------------------------------------------
  // The search reports something
  // ------------------------------------------------------------------

  function Rows(edges: set<Edge>, q: Query, n: nat): set<Row> {
    if n == 0 then {} else Rows(edges, q, n - 1) + Level(edges, q, n)
  }

  lemma {:induction false} RowsAre(edges: set<Edge>, q: Query, n: nat, row: Row)
    ensures row in Rows(edges, q, n) <==> 1 <= row.depth <= n && row in Level(edges, q, row.depth)
  {
    if n > 0 {
      RowsAre(edges, q, n - 1, row);
      if row in Level(edges, q, n) {
        var w := RowHasWalk(edges, q, n, row);
      }
    }
  }

  ghost predicate IsBest(S: set<Row>, r: Row) {
    r in S && forall x :: x in S && x.node == r.node ==> x.weight <= r.weight
  }

  lemma {:induction false} BestExists(S: set<Row>, row: Row)
    requires row in S
    ensures exists r :: IsBest(S, r) && r.node == row.node
  {
    var rest := S - {row};
    if x :| x in rest && x.node == row.node {
      BestExists(rest, x);
      var r :| IsBest(rest, r) && r.node == row.node;
      assert IsBest(S, if row.weight > r.weight then row else r);
    } else {
      assert IsBest(S, row);
    }
  }

  /** One of the best rows of S for the node of the given one. */
  ghost function Best(S: set<Row>, n: NodeId): (r: Row)
    requires exists row :: row in S && row.node == n
    ensures IsBest(S, r) && r.node == n
  {
    var row :| row in S && row.node == n;
    BestExists(S, row);
    var r :| IsBest(S, r) && r.node == n;
    r
  }

  /** Some answer always meets the rules of the query. */
  lemma {:induction false} ReportExists(edges: set<Edge>, q: Query) returns (out: set<Row>)
    ensures Reported(edges, q, out)
  {
    var S := Rows(edges, q, Reach(q));
    out := set row | row in S && row == Best(S, row.node);
    forall row: Row ensures Explored(edges, q, row) <==> row in S {
      RowsAre(edges, q, Reach(q), row);
    }
    forall row | row in S ensures Beaten(out, row) {
      assert Best(S, row.node) in out;
    }
  }

  /** The answer has one row for each node, and it is the heaviest row of that node. */
  lemma {:induction false} ReportedRows(edges: set<Edge>, q: Query, out: set<Row>, w: seq<Edge>, row: Row)
    requires Reported(edges, q, out) && RowOf(edges, q, w, row)
    ensures |set r | r in out && r.node == row.node| == 1
    ensures forall r :: r in out && r.node == row.node ==> r.weight >= Product(w) && exists v :: RowOf(edges, q, v, r)
  {
    RowsAreWalks(edges, q, row);
    assert Beaten(out, row);
    var r :| r in out && r.node == row.node;
    assert (set r | r in out && r.node == row.node) == {r};
    assert Explored(edges, q, r);
    RowsAreWalks(edges, q, r);
  }

  // ------------------------------------------------------------------
  // The search is exact
  // ------------------------------------------------------------------

  /** A walk to t that the depth bound admits. */
  ghost predicate WalkTo(edges: set<Edge>, q: Query, t: NodeId, w: seq<Edge>) {
    Walk(edges, q, w) && 1 <= |w| <= Reach(q) && End(q, w) == t
  }

  /** No walk within the depth bound is heavier than the row says. */
  ghost predicate Maximal(edges: set<Edge>, q: Query, r: Row) {
    forall w :: WalkTo(edges, q, r.node, w) ==> Product(w) <= r.weight
  }

  /** Although only cycle-free paths are explored, each reported weight is the maximum of the
      products over all walks within the depth bound, unless one of them runs around a closed
      stretch that multiplies weights; some walk always attains it. */
  lemma {:induction false} BestPathSearch(edges: set<Edge>, q: Query, out: set<Row>, r: Row)
    requires Reported(edges, q, out) && r in out && r.node != q.start
    ensures NonNegative(edges, q) && NoGain(edges, q, Reach(q)) ==> Maximal(edges, q, r)
    ensures exists w :: WalkTo(edges, q, r.node, w) && Product(w) == r.weight
  {
    if NonNegative(edges, q) && NoGain(edges, q, Reach(q)) {
      forall w | WalkTo(edges, q, r.node, w) ensures Product(w) <= r.weight {
        var v := LoopErasure(edges, q, w);
        var row := WalkHasRow(edges, q, v);
        assert Explored(edges, q, row) && Beaten(out, row);
      }
    }
    assert Explored(edges, q, r);
    var w := RowHasWalk(edges, q, r.depth, r);
    assert WalkTo(edges, q, r.node, w);
  }

  /** Weights of at most 1, which is what the column is meant to hold, leave no such stretch. */
  lemma {:induction false} UnitWeightsNoGain(edges: set<Edge>, q: Query, n: nat)
    requires UnitWeights(edges)
    ensures NonNegative(edges, q) && NoGain(edges, q, n)
  {
    forall x, c, y | Gain(edges, q, x, c, y) ensures false {
      UnitProduct(edges, q.(start := End(q, x)), c);
    }
  }

  lemma {:induction false} Scale(x: real, y: real)
    requires 0.0 <= x && 0.0 <= y <= 1.0
    ensures 0.0 <= y * x <= x
  {
    assert (1.0 - y) * x >= 0.0;
  }

  lemma {:induction false} UnitProduct(edges: set<Edge>, q: Query, w: seq<Edge>)
    requires UnitWeights(edges) && Walk(edges, q, w)
    ensures 0.0 <= Product(w) <= 1.0
  {
    if w != [] {
      UnitProduct(edges, q, Init(w));
      Scale(Product(Init(w)), Last(w).weight);
    }
  }

  /** A node other than the start is reported exactly when such a walk exists. */
  lemma {:induction false} FoundIffReachable(edges: set<Edge>, q: Query, out: set<Row>, t: NodeId)
    requires Reported(edges, q, out) && t != q.start
    ensures (exists r :: r in out && r.node == t) <==> (exists w :: WalkTo(edges, q, t, w))
  {
    if r :| r in out && r.node == t {
      BestPathSearch(edges, q, out, r);
    }
    if w :| WalkTo(edges, q, t, w) {
      var v := LoopErasure(edges, q, w);
      var row := WalkHasRow(edges, q, v);
      assert Explored(edges, q, row) && Beaten(out, row);
    }
  }

  /** The same edge by edge. */
  lemma {:induction false} FoundIffConnected(edges: set<Edge>, q: Query, out: set<Row>, t: NodeId)
    requires Reported(edges, q, out) && t != q.start
    ensures (exists r :: r in out && r.node == t) <==> (exists w :: Connects(edges, q, w, t))
  {
    FoundIffReachable(edges, q, out, t);
    if w :| WalkTo(edges, q, t, w) {
      WalkFollows(edges, q, w);
      assert Connects(edges, q, w, t);
    }
    if w :| Connects(edges, q, w, t) {
      WalkFollows(edges, q, w);
      assert WalkTo(edges, q, t, w);
    }
  }

  ghost predicate Connects(edges: set<Edge>, q: Query, w: seq<Edge>, t: NodeId) {
    (|w| == 1 || 1 < |w| <= q.maxDepth) && Follows(edges, q, w) && w[|w| - 1].target == t
  }

  /** The start itself is reported exactly when it has a usable edge to itself: longer ways
      back to it are excluded as cycles. */
  lemma {:induction false} StartFoundIffSelfLoop(edges: set<Edge>, q: Query, out: set<Row>)
    requires Reported(edges, q, out)
    ensures (exists r :: r in out && r.node == q.start) <==>
            (exists e :: e in edges && e.source == q.start && e.target == q.start && Usable(q, e))
  {
    if r :| r in out && r.node == q.start {
      assert Explored(edges, q, r);
      var w := RowHasWalk(edges, q, r.depth, r);
      StartVisited(q, Init(w));
      assert |w| == 1 && Init(w) == [];
      assert Last(w) in edges;
    }
    if e :| e in edges && e.source == q.start && e.target == q.start && Usable(q, e) {
      var row := BaseRow(e);
      assert Starts(edges, q, e);
      assert Explored(edges, q, row) && Beaten(out, row);
    }
  }

  lemma {:induction false} StartVisited(q: Query, w: seq<Edge>)
    ensures q.start in Visits(q, w)
  {
    if w != [] {
      StartVisited(q, Init(w));
    }
  }

  // ------------------------------------------------------------------
  // When it is not
  // ------------------------------------------------------------------

  ghost function EdgesOf(w: seq<Edge>): set<Edge> {
    set e | e in w
  }

  /** A cycle-free walk uses no edge twice. */
  lemma {:induction false} CycleFreeIsShort(edges: set<Edge>, q: Query, w: seq<Edge>)
    requires Walk(edges, q, w) && CycleFree(q, w)
    ensures |EdgesOf(w)| == |w| && EdgesOf(w) <= edges
    ensures |w| <= |edges|
  {
    if w == [] {
      assert EdgesOf(w) == {};
    } else {
      CycleFreeIsShort(edges, q, Init(w));
      if Last(w) in Init(w) {
        TargetVisited(q, Init(w), Last(w));
      }
      assert w == Init(w) + [Last(w)];
      assert EdgesOf(w) == EdgesOf(Init(w)) + {Last(w)};
    }
    SubsetSize(EdgesOf(w), edges);
  }

  lemma {:induction false} TargetVisited(q: Query, w: seq<Edge>, e: Edge)
    requires e in w
    ensures e.target in Visits(q, w)
  {
    if e != Last(w) {
      assert w == Init(w) + [Last(w)];
      TargetVisited(q, Init(w), e);
    }
  }

  /** A node the search gets wrong, at some depth: it reports it, but below the maximum. */
  ghost predicate Missed(edges: set<Edge>, q: Query, out: set<Row>, t: NodeId) {
    exists r, w :: r in out && r.node == t && WalkTo(edges, q, t, w) && Product(w) > r.weight
  }

  /** From depth |edges| + |x| + |c| + |y| on, a closed stretch that multiplies weights makes every
      answer wrong: for the node it hangs on or, if that is the start, for the node behind it. */
  lemma {:induction false} GainIsMissed(edges: set<Edge>, q: Query, x: seq<Edge>, c: seq<Edge>, y: seq<Edge>,
                                        out: set<Row>)
    returns (t: NodeId)
    requires NonNegative(edges, q) && Gain(edges, q, x, c, y)
    requires q.maxDepth >= |edges| + |x| + |c| + |y| && Reported(edges, q, out)
    ensures t != q.start && Missed(edges, q, out, t)
  {
    if End(q, x) != q.start {
      t := End(q, x);
      var r, v := BestRow(edges, q, out, x);
      LoopBehind(edges, q, v, c);
      assert WalkTo(edges, q, t, v + c) && Product(v + c) > r.weight;
    } else {
      t := End(q, y);
      assert q.(start := End(q, x)) == q;
      var r, v := BestRow(edges, q, out, y);
      LoopAhead(edges, q, c, v);
      assert WalkTo(edges, q, t, c + v) && Product(c + v) > r.weight;
    }
  }

  lemma {:induction false} LoopBehind(edges: set<Edge>, q: Query, v: seq<Edge>, c: seq<Edge>)
    requires Walk(edges, q, v) && Product(v) > 0.0 && Product(c) > 1.0
    requires WalkFrom(edges, q, End(q, v), c) && End(q.(start := End(q, v)), c) == End(q, v)
    ensures Walk(edges, q, v + c) && End(q, v + c) == End(q, v) && Product(v + c) > Product(v)
  {
    WalkOfSum(edges, q, v, c);
    ProductOfSum(v, c);
    Heavier(Product(v), Product(c), Product(v + c));
  }

  lemma {:induction false} LoopAhead(edges: set<Edge>, q: Query, c: seq<Edge>, v: seq<Edge>)
    requires Walk(edges, q, v) && Product(v) > 0.0 && Product(c) > 1.0
    requires Walk(edges, q, c) && End(q, c) == q.start
    ensures Walk(edges, q, c + v) && End(q, c + v) == End(q, v) && Product(c + v) > Product(v)
  {
    assert q.(start := q.start) == q;
    WalkOfSum(edges, q, c, v);
    ProductOfSum(c, v);
    Heavier(Product(v), Product(c), Product(c + v));
  }

  lemma {:induction false} Heavier(p: real, g: real, w: real)
    requires p > 0.0 && g > 1.0 && (w == p * g || w == g * p)
    ensures w > p
  {
    assert p * (g - 1.0) > 0.0;
  }

  /** What is reported for the end of a walk with some weight has some weight, and is the weight
      of a walk with no more edges than there are in the graph. */
  lemma {:induction false} BestRow(edges: set<Edge>, q: Query, out: set<Row>, p: seq<Edge>)
    returns (r: Row, v: seq<Edge>)
    requires NonNegative(edges, q) && Reported(edges, q, out)
    requires Walk(edges, q, p) && |p| <= q.maxDepth && Product(p) > 0.0 && End(q, p) != q.start
    ensures r in out && r.node == End(q, p) == End(q, v) && r.weight == Product(v) > 0.0
    ensures Walk(edges, q, v) && 1 <= |v| <= |edges|
  {
    var short := LoopErasure(edges, q, p);
    var row := WalkHasRow(edges, q, short);
    assert Explored(edges, q, row) && Beaten(out, row);
    r :| r in out && r.node == row.node && r.weight >= row.weight;
    assert Explored(edges, q, r);
    v := RowHasWalk(edges, q, r.depth, r);
    CycleFreeIsShort(edges, q, v);
  }

  ghost predicate HasGain(edges: set<Edge>, q: Query) {
    exists x, c, y :: Gain(edges, q, x, c, y)
  }

  /** The answers are right at every depth. */
  ghost predicate ExactAtAllDepths(edges: set<Edge>, q: Query) {
    forall d: int, out: set<Row>, r: Row {:trigger Reported(edges, q.(maxDepth := d), out), r in out} ::
      Reported(edges, q.(maxDepth := d), out) && r in out && r.node != q.start ==> Maximal(edges, q.(maxDepth := d), r)
  }

  /** The exact condition: the search from a node reports true maxima at every depth exactly when
      no walk from it can gain weight by running around a closed stretch on its way to another
      node. */
  lemma {:induction false} SearchExactIff(edges: set<Edge>, q: Query)
    requires NonNegative(edges, q)
    ensures ExactAtAllDepths(edges, q) <==> !HasGain(edges, q)
  {
    if x, c, y :| Gain(edges, q, x, c, y) {
      var d := |edges| + |x| + |c| + |y|;
      var out := ReportExists(edges, q.(maxDepth := d));
      GainAnyDepth(edges, q, d, x, c, y);
      var t := GainIsMissed(edges, q.(maxDepth := d), x, c, y, out);
      var r, w :| r in out && r.node == t && WalkTo(edges, q.(maxDepth := d), t, w) && Product(w) > r.weight;
      assert !Maximal(edges, q.(maxDepth := d), r);
    } else {
      forall d: int, out: set<Row>, r: Row | Reported(edges, q.(maxDepth := d), out) && r in out && r.node != q.start
        ensures Maximal(edges, q.(maxDepth := d), r)
      {
        forall x, c, y ensures !Gain(edges, q.(maxDepth := d), x, c, y) {
          GainAnyDepth(edges, q, d, x, c, y);
        }
        BestPathSearch(edges, q.(maxDepth := d), out, r);
      }
    }
  }

  lemma {:induction false} GainAnyDepth(edges: set<Edge>, q: Query, d: int, x: seq<Edge>, c: seq<Edge>, y: seq<Edge>)
    ensures Gain(edges, q.(maxDepth := d), x, c, y) <==> Gain(edges, q, x, c, y)
  {
    AnyDepth(edges, q, d, x);
    assert q.(maxDepth := d).(start := End(q, x)) == q.(start := End(q, x)).(maxDepth := d);
    AnyDepth(edges, q.(start := End(q, x)), d, c);
    AnyDepth(edges, q.(start := End(q, x)), d, y);
  }

  lemma {:induction false} OneEdgeWalk(edges: set<Edge>, q: Query, e: Edge)
    requires Starts(edges, q, e)
    ensures Walk(edges, q, [e]) && End(q, [e]) == e.target && Product([e]) == e.weight
  {
    OneEdge(q, e);
    var none := Init([e]);
    assert Walk(edges, q, none) && End(q, none) == q.start;
  }

  /** Such graphs exist: an edge of weight 1 to a node with a loop of weight 2. */
  lemma {:induction false} HeavyLoopGains() returns (edges: set<Edge>, q: Query)
    ensures NonNegative(edges, q) && HasGain(edges, q) && !ExactAtAllDepths(edges, q)
  {
    var go, loop := Edge(0, 1, "x", 1.0), Edge(1, 1, "x", 2.0);
    edges, q := {go, loop}, Query(0, 2, {}, 0.1);
    OneEdgeWalk(edges, q, go);
    OneEdgeWalk(edges, q.(start := 1), loop);
    assert Gain(edges, q, [go], [loop], []);
    SearchExactIff(edges, q);
  }

  // ------------------------------------------------------------------
  // The depth bound
  // ------------------------------------------------------------------

  /** A row deeper than max_depth comes out exactly when max_depth is below 1 and some usable edge
      leaves the start: the base term is not subject to the bound. */
  lemma {:induction false} DepthExceededIff(edges: set<Edge>, q: Query)
    ensures (exists row :: Explored(edges, q, row) && row.depth > q.maxDepth) <==>
            q.maxDepth < 1 && exists e :: Starts(edges, q, e)
  {
    if row :| Explored(edges, q, row) && row.depth > q.maxDepth {
      var e :| e in edges && Starts(edges, q, e) && row == BaseRow(e);
      assert Starts(edges, q, e);
    }
    if e :| q.maxDepth < 1 && Starts(edges, q, e) {
      assert Explored(edges, q, BaseRow(e));
    }
  }
}
