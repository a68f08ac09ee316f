/** Greedy clustering of embedded observations, and the similarity it is run with. */
module Clustering {

  import opened Basics

  type Vector = seq<real>

  const THRESHOLD := 0.75

  // ------------------------------------------------------------------
  // Cosine similarity
  // ------------------------------------------------------------------

  function Dot(a: Vector, b: Vector): real
    requires |a| == |b|
  {
    if a == [] then 0.0 else Dot(a[..|a| - 1], b[..|b| - 1]) + a[|a| - 1] * b[|b| - 1]
  }

  /** The sum of the products, whatever the vectors are made of. */
  lemma {:induction false} DotOfSum(a: Vector, b: Vector, c: Vector, d: Vector)
    requires |a| == |b| && |c| == |d|
    ensures Dot(a + c, b + d) == Dot(a, b) + Dot(c, d)
    ensures |c| == 0 ==> Dot(c, d) == 0.0
    ensures |c| == 1 ==> Dot(c, d) == c[0] * d[0]
  {
    if c == [] {
      assert a + c == a && b + d == b;
    } else {
      var n := |c| - 1;
      DotOfSum(a, b, c[..n], d[..n]);
      assert (a + c)[..|a| + n] == a + c[..n] && (b + d)[..|a| + n] == b + d[..n];
    }
  }

  /** A square root where the similarity needs one. */
  ghost predicate IsRoot(r: real, x: real) {
    r >= 0.0 && r * r == x
  }

  lemma {:induction false} DotSymmetric(a: Vector, b: Vector)
    requires |a| == |b|
    ensures Dot(a, b) == Dot(b, a)
  {
    if a != [] {
      DotSymmetric(a[..|a| - 1], b[..|b| - 1]);
    }
  }

  lemma {:induction false} NormPositive(a: Vector)
    ensures Dot(a, a) >= 0.0
  {
    if a != [] {
      NormPositive(a[..|a| - 1]);
    }
  }

  /** Cauchy-Schwarz for the three sums. */
  lemma {:induction false} CauchySchwarz(a: Vector, b: Vector)
    requires |a| == |b|
    ensures Dot(a, b) * Dot(a, b) <= Dot(a, a) * Dot(b, b)
  {
    if a != [] {
      var a', b' := a[..|a| - 1], b[..|b| - 1];
      CauchySchwarz(a', b');
      NormPositive(a');
      NormPositive(b');
      OneMoreTerm(Dot(a', b'), Dot(a', a'), Dot(b', b'), a[|a| - 1], b[|b| - 1]);
    }
  }

  /** (d + xy)^2 <= (p + x^2)(q + y^2) whenever d^2 <= pq. */
  lemma {:induction false} OneMoreTerm(d: real, p: real, q: real, x: real, y: real)
    requires p >= 0.0 && q >= 0.0 && d * d <= p * q
    ensures (d + x * y) * (d + x * y) <= (p + x * x) * (q + y * y)
  {
    var u, v := x * x, y * y;
    var cross := d * (x * y);
    assert (d + x * y) * (d + x * y) == d * d + 2.0 * cross + (x * y) * (x * y);
    assert (x * y) * (x * y) == u * v;
    assert (p + u) * (q + v) == p * q + p * v + u * q + u * v;
    MeanBound(d, p, q, x, y);
  }

  /** 2dxy <= p y^2 + q x^2: the product of the right-hand terms dominates (dxy)^2. */
  lemma {:induction false} MeanBound(d: real, p: real, q: real, x: real, y: real)
    requires p >= 0.0 && q >= 0.0 && d * d <= p * q
    ensures 2.0 * (d * (x * y)) <= p * (y * y) + (x * x) * q
  {
    var s, t, c := p * (y * y), (x * x) * q, d * (x * y);
    var w := (x * x) * (y * y);
    assert w >= 0.0;
    assert c * c == (d * d) * w;
    assert s * t == (p * q) * w;
    assert (p * q - d * d) * w >= 0.0;
    SquaresDominate(s, t, c);
  }

  lemma {:induction false} SquaresDominate(s: real, t: real, c: real)
    requires s >= 0.0 && t >= 0.0 && c * c <= s * t
    ensures 2.0 * c <= s + t
  {
    assert (s - t) * (s - t) >= 0.0;
    assert (2.0 * c) * (2.0 * c) == 4.0 * (c * c);
    assert (s + t) * (s + t) == (s - t) * (s - t) + 4.0 * (s * t);
    if 2.0 * c > s + t {
      LargerSquare(2.0 * c, s + t);
    }
  }

  lemma {:induction false} Positive(x: real, y: real)
    requires x > 0.0 && y > 0.0
    ensures x * y > 0.0
  {
  }

  lemma {:induction false} LargerSquare(z: real, w: real)
    requires z > w >= 0.0
    ensures z * z > w * w
  {
    Positive(z - w, z + w);
    assert (z - w) * (z + w) == z * z - w * w;
  }

  /** `_cosine_similarity`, with the two square roots handed in; empty vectors, vectors of
      different length and vectors of norm 0 score 0. */
  function Cosine(a: Vector, b: Vector, normA: real, normB: real): real {
    if a == [] || b == [] || |a| != |b| || normA == 0.0 || normB == 0.0 then 0.0
    else Dot(a, b) / (normA * normB)
  }

  ghost predicate Norms(a: Vector, b: Vector, normA: real, normB: real) {
    IsRoot(normA, Dot(a, a)) && IsRoot(normB, Dot(b, b))
  }

  /** The three sums of the source, in one pass. */
  method CosineSimilarity(a: Vector, b: Vector, root: real -> real) returns (r: real)
    requires IsRoot(root(Dot(a, a)), Dot(a, a)) && IsRoot(root(Dot(b, b)), Dot(b, b))
    ensures r == Cosine(a, b, root(Dot(a, a)), root(Dot(b, b)))
    ensures if a == [] || |a| != |b| || root(Dot(a, a)) == 0.0 || root(Dot(b, b)) == 0.0 then r == 0.0
            else r * (root(Dot(a, a)) * root(Dot(b, b))) == Dot(a, b)
    ensures -1.0 <= r <= 1.0
  {
    CosineBounded(a, b, root(Dot(a, a)), root(Dot(b, b)));
    if |a| == 0 || |b| == 0 || |a| != |b| {
      return 0.0;
    }
    var dot, sumA, sumB := 0.0, 0.0, 0.0;
    for i := 0 to |a|
      invariant dot == Dot(a[..i], b[..i]) && sumA == Dot(a[..i], a[..i]) && sumB == Dot(b[..i], b[..i])
    {
      DotTake(a, b, i);
      DotTake(a, a, i);
      DotTake(b, b, i);
      dot, sumA, sumB := dot + a[i] * b[i], sumA + a[i] * a[i], sumB + b[i] * b[i];
    }
    assert a[..|a|] == a && b[..|b|] == b;
    var normA, normB := root(sumA), root(sumB);
    if normA == 0.0 || normB == 0.0 {
      return 0.0;
    }
    return dot / (normA * normB);
  }

  lemma {:induction false} DotTake(a: Vector, b: Vector, i: nat)
    requires |a| == |b| && i < |a|
    ensures Dot(a[..i + 1], b[..i + 1]) == Dot(a[..i], b[..i]) + a[i] * b[i]
  {
    assert a[..i + 1][..i] == a[..i] && b[..i + 1][..i] == b[..i];
  }

  /** Similarity of real vectors of any lengths lies between -1 and 1. */
  lemma {:induction false} CosineBounded(a: Vector, b: Vector, normA: real, normB: real)
    requires Norms(a, b, normA, normB)
    ensures -1.0 <= Cosine(a, b, normA, normB) <= 1.0
  {
    if a != [] && |a| == |b| && normA != 0.0 && normB != 0.0 {
      CauchySchwarz(a, b);
      QuotientBounded(Dot(a, b), normA, normB, Dot(a, a), Dot(b, b));
    }
  }

  lemma {:induction false} QuotientBounded(d: real, m: real, n: real, p: real, q: real)
    requires m > 0.0 && n > 0.0 && m * m == p && n * n == q && d * d <= p * q
    ensures -1.0 <= d / (m * n) <= 1.0
  {
    var w := m * n;
    assert w > 0.0;
    assert w * w == p * q;
    var x := d / w;
    assert x * w == d;
    assert (-d) * (-d) == d * d;
    if d > w {
      LargerSquare(d, w);
    } else if -d > w {
      LargerSquare(-d, w);
    }
    Ratio(d, w, x);
  }

  lemma {:induction false} Ratio(d: real, w: real, x: real)
    requires w > 0.0 && x * w == d && -w <= d <= w
    ensures -1.0 <= x <= 1.0
  {
    assert (x - 1.0) * w == d - w && (-1.0 - x) * w == -w - d;
    if x > 1.0 {
      Positive(x - 1.0, w);
    } else if x < -1.0 {
      Positive(-1.0 - x, w);
    }
  }

  lemma {:induction false} CosineSymmetric(a: Vector, b: Vector, normA: real, normB: real)
    requires Norms(a, b, normA, normB)
    ensures Cosine(a, b, normA, normB) == Cosine(b, a, normB, normA)
  {
    if |a| == |b| {
      DotSymmetric(a, b);
    }
  }

  // ------------------------------------------------------------------
  // Greedy clustering
  // ------------------------------------------------------------------

  /** Any similarity on the positions of the embedded observations. */
  type Similarity = (nat, nat) -> real

  /** Position i opens a cluster: no earlier leader is similar enough to it. */
  ghost predicate Leads(sim: Similarity, i: nat)
    decreases i
  {
    forall l: nat :: l < i && Leads(sim, l) ==> sim(l, i) <= THRESHOLD
  }

  /** l is the earliest leader similar enough to j, or j itself if there is none. */
  ghost predicate LeaderOf(sim: Similarity, l: nat, j: nat) {
    && l <= j && Leads(sim, l)
    && (l < j ==> sim(l, j) > THRESHOLD)
    && (forall k: nat :: k < l && Leads(sim, k) ==> sim(k, j) <= THRESHOLD)
  }

  /** One cluster for each leader below `upTo`, in order; each lists, in rising order, exactly
      the positions below n of which its first entry is the leader. */
  ghost predicate Clusters(sim: Similarity, n: nat, upTo: nat, clusters: seq<seq<nat>>) {
    && (forall c :: 0 <= c < |clusters| ==>
          && clusters[c] != [] && Increasing(clusters[c])
          && (forall x: nat :: x in clusters[c] <==> x < n && LeaderOf(sim, clusters[c][0], x)))
    && (forall c :: 0 <= c < |clusters| ==> clusters[c][0] < upTo && Leads(sim, clusters[c][0]))
    && (forall c, d :: 0 <= c < d < |clusters| ==> clusters[c][0] < clusters[d][0])
    && (forall l: nat :: l < upTo && Leads(sim, l) ==> exists c :: 0 <= c < |clusters| && clusters[c][0] == l)
  }

  lemma {:induction false} OneLeader(sim: Similarity, l: nat, m: nat, j: nat)
    requires LeaderOf(sim, l, j) && LeaderOf(sim, m, j)
    ensures l == m
  {
  }

  /** Every position has a leader. */
  lemma {:induction false} HasLeader(sim: Similarity, j: nat) returns (l: nat)
    ensures LeaderOf(sim, l, j)
  {
    l := FirstLeader(sim, j, 0);
  }

  lemma {:induction false} FirstLeader(sim: Similarity, j: nat, from: nat) returns (l: nat)
    requires from <= j && forall k: nat :: k < from && Leads(sim, k) ==> sim(k, j) <= THRESHOLD
    ensures LeaderOf(sim, l, j)
    decreases j - from
  {
    if from == j || (Leads(sim, from) && sim(from, j) > THRESHOLD) {
      l := from;
    } else {
      l := FirstLeader(sim, j, from + 1);
    }
  }

  /** The members of i's cluster below j. */
  ghost predicate Gathered(sim: Similarity, i: nat, j: nat, cluster: seq<nat>) {
    && cluster != [] && cluster[0] == i && Increasing(cluster)
    && (forall x: nat :: x in cluster <==> x == i || (i < x < j && LeaderOf(sim, i, x)))
  }

  /** The inner loop: i's cluster takes every later unused position similar enough to i. */
  method Gather(sim: Similarity, n: nat, i: nat, used: set<nat>) returns (cluster: seq<nat>, taken: set<nat>)
    requires i < n && Leads(sim, i)
    requires Used(sim, n, i, used)
    ensures Gathered(sim, i, n, cluster)
    ensures Used(sim, n, i + 1, taken)
  {
    cluster := [i];
    taken := used + {i};
    LeadsItself(sim, i);
    for j := 0 to n
      invariant Gathered(sim, i, j, cluster)
      invariant forall x: nat :: x in taken <==> x in used || x in cluster
    {
      if !(j in taken || j <= i) {
        UnusedJoins(sim, n, i, j, used);
        GatheredBelow(sim, i, j, cluster);
        if sim(i, j) > THRESHOLD {
          cluster := cluster + [j];
          taken := taken + {j};
        }
      } else if j > i && j in used {
        ghost var l: nat :| l < i && LeaderOf(sim, l, j);
        assert !LeaderOf(sim, i, j);
      }
    }
    forall x: nat ensures x in taken <==> x < n && exists l: nat :: l < i + 1 && LeaderOf(sim, l, x) {
      if x in cluster {
        assert LeaderOf(sim, i, x);
      }
    }
  }

  lemma {:induction false} GatheredBelow(sim: Similarity, i: nat, j: nat, cluster: seq<nat>)
    requires Gathered(sim, i, j, cluster) && i < j
    ensures Increasing(cluster + [j])
  {
    forall k | 0 <= k < |cluster| ensures cluster[k] < j {
      assert cluster[k] in cluster;
    }
  }

  /** The used positions are those that earlier clusters took. */
  ghost predicate Used(sim: Similarity, n: nat, upTo: nat, used: set<nat>) {
    forall x: nat :: x in used <==> x < n && exists l: nat :: l < upTo && LeaderOf(sim, l, x)
  }

  lemma {:induction false} UsedIffFollower(sim: Similarity, n: nat, i: nat, used: set<nat>)
    requires i < n && Used(sim, n, i, used)
    ensures i in used <==> !Leads(sim, i)
    ensures i in used ==> Used(sim, n, i + 1, used)
  {
    LeadsItself(sim, i);
    var l := HasLeader(sim, i);
    if i in used {
      forall x: nat, m: nat | m < i + 1 && LeaderOf(sim, m, x) ensures m < i {}
    }
  }

  /** A leader leads its own position. */
  lemma {:induction false} LeadsItself(sim: Similarity, i: nat)
    ensures Leads(sim, i) <==> LeaderOf(sim, i, i)
  {
  }

  /** A position no earlier leader took joins i's cluster exactly when it is similar to i. */
  lemma {:induction false} UnusedJoins(sim: Similarity, n: nat, i: nat, j: nat, used: set<nat>)
    requires i < j < n && Leads(sim, i) && j !in used
    requires Used(sim, n, i, used)
    ensures LeaderOf(sim, i, j) <==> sim(i, j) > THRESHOLD
  {
    forall k: nat | k < i && Leads(sim, k) ensures sim(k, j) <= THRESHOLD {
      if sim(k, j) > THRESHOLD {
        var l := FirstLeader(sim, j, 0);
      }
    }
  }

  /** The outer loop of `_cluster_observations`, on the embedded observations. */
  method Greedy(sim: Similarity, n: nat) returns (clusters: seq<seq<nat>>)
    ensures Clusters(sim, n, n, clusters)
  {
    var used: set<nat> := {};
    clusters := [];
    for i := 0 to n
      invariant Clusters(sim, n, i, clusters)
      invariant Used(sim, n, i, used)
    {
      UsedIffFollower(sim, n, i, used);
      if i !in used {
        var cluster;
        cluster, used := Gather(sim, n, i, used);
        ClustersGrow(sim, n, i, clusters, cluster);
        clusters := clusters + [cluster];
      } else {
        ClustersWait(sim, n, i, clusters);
      }
    }
  }

  lemma {:induction false} ClustersGrow(sim: Similarity, n: nat, i: nat, clusters: seq<seq<nat>>, cluster: seq<nat>)
    requires i < n && Leads(sim, i) && Clusters(sim, n, i, clusters) && Gathered(sim, i, n, cluster)
    ensures Clusters(sim, n, i + 1, clusters + [cluster])
  {
    var all := clusters + [cluster];
    LeadsItself(sim, i);
    forall l: nat | l < i + 1 && Leads(sim, l) ensures exists c :: 0 <= c < |all| && all[c][0] == l {
      if l == i {
        assert all[|clusters|][0] == l;
      } else {
        var c :| 0 <= c < |clusters| && clusters[c][0] == l;
        assert all[c][0] == l;
      }
    }
  }

  lemma {:induction false} ClustersWait(sim: Similarity, n: nat, i: nat, clusters: seq<seq<nat>>)
    requires !Leads(sim, i) && Clusters(sim, n, i, clusters)
    ensures Clusters(sim, n, i + 1, clusters)
  {
  }

  function Embedded(observations: seq<Option<Vector>>): seq<Vector> {
    if observations == [] then []
    else (if observations[0].Some? then [observations[0].value] else []) + Embedded(observations[1..])
  }

  /** The vectors there are, in their order. */
  lemma {:induction false} EmbeddedOfSum(a: seq<Option<Vector>>, b: seq<Option<Vector>>)
    ensures Embedded(a + b) == Embedded(a) + Embedded(b)
  {
    if a == [] {
      assert a + b == b;
    } else {
      var head := if a[0].Some? then [a[0].value] else [];
      EmbeddedOfSum(a[1..], b);
      assert (a + b)[1..] == a[1..] + b;
      assert Embedded(a + b) == head + (Embedded(a[1..]) + Embedded(b));
    }
  }

  lemma {:induction false} EmbeddedOne(v: Vector)
    ensures Embedded([Some(v)]) == [v] && Embedded([None]) == [] && Embedded([]) == []
  {
    assert [Some(v)][1..] == [];
  }

  function Between(vectors: seq<Vector>, similarity: (Vector, Vector) -> real): Similarity {
    (i: nat, j: nat) => if i < |vectors| && j < |vectors| then similarity(vectors[i], vectors[j]) else 0.0
  }

  /** `_cluster_observations`; clusters name positions among the embedded observations. */
  method ClusterObservations(observations: seq<Option<Vector>>, similarity: (Vector, Vector) -> real)
    returns (clusters: seq<seq<nat>>)
    ensures var n := |Embedded(observations)|;
            Clusters(Between(Embedded(observations), similarity), n, n, clusters)
    ensures Similar(Embedded(observations), similarity, clusters)
  {
    var embedded := Embedded(observations);
    var sim := Between(embedded, similarity);
    if |embedded| < 2 {
      clusters := if |embedded| == 1 then [[0]] else [];
      assert |embedded| == 1 ==> Leads(sim, 0) && clusters[0][0] == 0;
      return;
    }
    clusters := Greedy(sim, |embedded|);
    ClustersAreSimilar(embedded, similarity, clusters);
  }

  /** Members are similar to the first of their cluster, the first ones of two clusters are not. */
  ghost predicate Similar(vectors: seq<Vector>, similarity: (Vector, Vector) -> real, clusters: seq<seq<nat>>) {
    && (forall c, x: nat :: 0 <= c < |clusters| && x in clusters[c] ==>
          && clusters[c][0] <= x < |vectors|
          && (x != clusters[c][0] ==> similarity(vectors[clusters[c][0]], vectors[x]) > 0.75))
    && (forall c, d :: 0 <= c < d < |clusters| ==>
          && clusters[c] != [] && clusters[d] != [] && clusters[c][0] < clusters[d][0] < |vectors|
          && similarity(vectors[clusters[c][0]], vectors[clusters[d][0]]) <= 0.75)
  }

  lemma {:induction false} ClustersAreSimilar(vectors: seq<Vector>, similarity: (Vector, Vector) -> real,
                                              clusters: seq<seq<nat>>)
    requires Clusters(Between(vectors, similarity), |vectors|, |vectors|, clusters)
    ensures Similar(vectors, similarity, clusters)
  {
    var sim, n := Between(vectors, similarity), |vectors|;
    forall c, x: nat | 0 <= c < |clusters| && x in clusters[c]
      ensures clusters[c][0] <= x < n
      ensures x != clusters[c][0] ==> similarity(vectors[clusters[c][0]], vectors[x]) > 0.75
    {
      ClustersFitLeaders(sim, n, clusters, c, x);
    }
    forall c, d | 0 <= c < d < |clusters|
      ensures clusters[c][0] < clusters[d][0] < n
      ensures similarity(vectors[clusters[c][0]], vectors[clusters[d][0]]) <= 0.75
    {
      ClustersFitLeaders(sim, n, clusters, d, clusters[d][0]);
    }
  }

  /** Each embedded observation is in exactly one cluster. */
  lemma {:induction false} ClustersPartition(sim: Similarity, n: nat, clusters: seq<seq<nat>>, x: nat)
    requires Clusters(sim, n, n, clusters) && x < n
    ensures exists c :: 0 <= c < |clusters| && x in clusters[c]
    ensures forall c, d :: 0 <= c < |clusters| && 0 <= d < |clusters| && x in clusters[c] && x in clusters[d] ==> c == d
  {
    var l := HasLeader(sim, x);
    var c :| 0 <= c < |clusters| && clusters[c][0] == l;
    assert x in clusters[c];
    forall d, e | 0 <= d < e < |clusters| && x in clusters[d] && x in clusters[e] ensures false {
      OneLeader(sim, clusters[d][0], clusters[e][0], x);
    }
  }

  /** A member is similar to its own leader and to no earlier one; leaders are not similar. */
  lemma {:induction false} ClustersFitLeaders(sim: Similarity, n: nat, clusters: seq<seq<nat>>, c: nat, x: nat)
    requires Clusters(sim, n, n, clusters) && c < |clusters| && x in clusters[c]
    ensures x != clusters[c][0] ==> sim(clusters[c][0], x) > 0.75 && clusters[c][0] < x
    ensures forall d :: 0 <= d < c ==> sim(clusters[d][0], x) <= 0.75
    ensures forall d :: 0 <= d < c ==> sim(clusters[d][0], clusters[c][0]) <= 0.75
  {
    assert LeaderOf(sim, clusters[c][0], x);
    assert Leads(sim, clusters[c][0]);
  }

  /** These rules leave no choice: any two such clusterings are the same list of lists. */
  lemma {:induction false} ClusteringUnique(sim: Similarity, n: nat, a: seq<seq<nat>>, b: seq<seq<nat>>)
    requires Clusters(sim, n, n, a) && Clusters(sim, n, n, b)
    ensures a == b
  {
    var s, t := seq(|a|, c requires 0 <= c < |a| => a[c][0]), seq(|b|, c requires 0 <= c < |b| => b[c][0]);
    forall l: nat ensures l in s <==> l < n && Leads(sim, l) {
      LeadersListed(sim, n, a, s, l);
    }
    forall l: nat ensures l in t <==> l < n && Leads(sim, l) {
      LeadersListed(sim, n, b, t, l);
    }
    IncreasingUnique(s, t);
    forall c | 0 <= c < |a| ensures a[c] == b[c] {
      assert s[c] == t[c];
      IncreasingUnique(a[c], b[c]);
    }
  }

  lemma {:induction false} LeadersListed(sim: Similarity, n: nat, a: seq<seq<nat>>, s: seq<nat>, l: nat)
    requires Clusters(sim, n, n, a) && |s| == |a| && forall c :: 0 <= c < |a| ==> s[c] == a[c][0]
    ensures l in s <==> l < n && Leads(sim, l)
    ensures Increasing(s)
  {
    if l < n && Leads(sim, l) {
      var c :| 0 <= c < |a| && a[c][0] == l;
      assert s[c] == l;
    }
  }

  lemma {:induction false} IncreasingUnique(s: seq<nat>, t: seq<nat>)
    requires Increasing(s) && Increasing(t) && forall x: nat :: x in s <==> x in t
    ensures s == t
    decreases |s|
  {
    Inhabited(s);
    Inhabited(t);
    if s != [] && t != [] {
      assert s[0] in t && t[0] in s;
      IncreasingTail(s);
      IncreasingTail(t);
      IncreasingUnique(s[1..], t[1..]);
      assert s == [s[0]] + s[1..] && t == [t[0]] + t[1..];
    }
  }

  lemma {:induction false} Inhabited(s: seq<nat>)
    ensures s != [] ==> exists x: nat :: x in s
  {
    if s != [] {
      assert s[0] in s;
    }
  }

  lemma {:induction false} IncreasingTail(s: seq<nat>)
    requires Increasing(s) && s != []
    ensures Increasing(s[1..]) && forall x: nat :: x in s[1..] <==> x in s && x != s[0]
  {
    assert s == [s[0]] + s[1..];
  }
}
