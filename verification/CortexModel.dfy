/** The CORTEX store: nodes, trees, the queries the service runs on them, and their basic laws. */
module CortexModel {

  import opened Basics

  /** Node and tree ids are drawn from counters, so an id is also an insertion number. */
  type NodeId = nat
  type TreeId = nat

  datatype NodeType =
    | Root | Knowledge | Finding | Task | Output | Checkpoint
    | Group | Document | Section | Chunk | Observation | Pattern | Suggestion
    | Instruction | Strategy | Preference | Episode | EpisodeGroup
    | Snapshot | HealthRecord | HealthRoot

  datatype NodeStatus = Pending | Active | Complete | Summarised

  datatype Node = Node(
    tree: TreeId,
    parent: Option<NodeId>,
    kind: NodeType,
    summary: Option<string>,
    content: Option<string>,
    status: NodeStatus,
    depth: nat,
    order: int)

  type Nodes = map<NodeId, Node>

  /** Truth value of an optional Python string: both None and "" are false. */
  predicate Truthy(s: Option<string>) {
    s.Some? && s.value != ""
  }

  /** `sep.join(parts)`. */
  function Join(sep: string, parts: seq<string>): string {
    if parts == [] then "" else if |parts| == 1 then parts[0] else parts[0] + sep + Join(sep, parts[1..])
  }

  /** Where the i-th part begins: behind the earlier parts and as many separators. */
  function Offset(sep: string, parts: seq<string>, i: nat): nat
    requires i <= |parts|
  {
    if i == 0 then 0 else Offset(sep, parts, i - 1) + |parts[i - 1]| + |sep|
  }

  /** The text holds the parts in order, a separator between any two of them, and nothing else. */
  ghost predicate LaidOut(text: string, sep: string, parts: seq<string>) {
    && |text| == (if parts == [] then 0 else Offset(sep, parts, |parts|) - |sep|)
    && (forall i :: 0 <= i < |parts| ==> At(text, Offset(sep, parts, i), parts[i]))
    && (forall i :: 0 < i < |parts| ==> At(text, Offset(sep, parts, i) - |sep|, sep))
  }

  /** The piece stands at this place of the text. */
  predicate At(text: string, k: int, piece: string) {
    0 <= k <= k + |piece| <= |text| && text[k..k + |piece|] == piece
  }

  lemma {:induction false} JoinLaysOut(sep: string, parts: seq<string>)
    ensures LaidOut(Join(sep, parts), sep, parts)
  {
    JoinEnds(sep, parts);
    forall i | 0 <= i < |parts| ensures At(Join(sep, parts), Offset(sep, parts, i), parts[i]) {
      PartIsThere(sep, parts, i);
    }
    forall i | 0 < i < |parts| ensures At(Join(sep, parts), Offset(sep, parts, i) - |sep|, sep) {
      SeparatorIsThere(sep, parts, i);
    }
  }

  lemma {:induction false} JoinEnds(sep: string, parts: seq<string>)
    ensures |Join(sep, parts)| == if parts == [] then 0 else Offset(sep, parts, |parts|) - |sep|
  {
    if |parts| > 1 {
      JoinEnds(sep, parts[1..]);
      OffsetShift(sep, parts, |parts| - 1);
    }
  }

  lemma {:induction false} PartIsThere(sep: string, parts: seq<string>, i: nat)
    requires i < |parts|
    ensures At(Join(sep, parts), Offset(sep, parts, i), parts[i])
  {
    if i > 0 {
      OffsetShift(sep, parts, i - 1);
      PartIsThere(sep, parts[1..], i - 1);
      AtBehind(parts[0] + sep, Join(sep, parts[1..]), Offset(sep, parts[1..], i - 1), parts[i]);
    }
  }

  lemma {:induction false} SeparatorIsThere(sep: string, parts: seq<string>, i: nat)
    requires 0 < i < |parts|
    ensures At(Join(sep, parts), Offset(sep, parts, i) - |sep|, sep)
  {
    if i > 1 {
      OffsetShift(sep, parts, i - 1);
      SeparatorIsThere(sep, parts[1..], i - 1);
      AtBehind(parts[0] + sep, Join(sep, parts[1..]), Offset(sep, parts[1..], i - 1) - |sep|, sep);
    } else {
      assert Join(sep, parts)[|parts[0]|..|parts[0]| + |sep|] == sep;
    }
  }

  lemma {:induction false} OffsetShift(sep: string, parts: seq<string>, i: nat)
    requires i < |parts|
    ensures Offset(sep, parts, i + 1) == |parts[0]| + |sep| + Offset(sep, parts[1..], i)
  {
    if i > 0 {
      OffsetShift(sep, parts, i - 1);
    }
  }

  lemma {:induction false} AtBehind(lead: string, text: string, k: int, piece: string)
    requires At(text, k, piece)
    ensures At(lead + text, |lead| + k, piece)
  {
    assert (lead + text)[|lead| + k..|lead| + k + |piece|] == text[k..k + |piece|];
  }

  // ------------------------------------------------------------------
  // Parent links form a forest
  // ------------------------------------------------------------------

  ghost predicate Linked(nodes: Nodes, rank: map<NodeId, nat>, n: NodeId)
    requires n in nodes && rank.Keys == nodes.Keys
  {
    match nodes[n].parent
    case None => true
    case Some(p) => p in nodes && rank[p] < rank[n]
  }

  ghost predicate Ranked(nodes: Nodes, rank: map<NodeId, nat>, bound: nat) {
    && rank.Keys == nodes.Keys
    && (forall n :: n in nodes ==> rank[n] <= bound)
    && (forall n {:trigger Linked(nodes, rank, n)} :: n in nodes ==> Linked(nodes, rank, n))
  }

  /** Every parent exists and no chain of parent links returns to its start. */
  ghost predicate Forest(nodes: Nodes) {
    exists rank, bound :: Ranked(nodes, rank, bound)
  }

  ghost function Ranking(nodes: Nodes): (r: (map<NodeId, nat>, nat))
    requires Forest(nodes)
    ensures Ranked(nodes, r.0, r.1)
  {
    var rank, bound :| Ranked(nodes, rank, bound);
    (rank, bound)
  }

  /** Rank of a node: smaller than the rank of each of its children. */
  ghost function Up(nodes: Nodes, n: NodeId): nat
    requires Forest(nodes) && n in nodes
  {
    Ranking(nodes).0[n]
  }

  /** Room below a node: larger than the room below each of its children. */
  ghost function Down(nodes: Nodes, n: NodeId): nat
    requires Forest(nodes) && n in nodes
  {
    Ranking(nodes).1 - Ranking(nodes).0[n]
  }

  lemma {:induction false} ParentRanks(nodes: Nodes, n: NodeId)
    requires Forest(nodes) && n in nodes && nodes[n].parent.Some?
    ensures nodes[n].parent.value in nodes
    ensures Up(nodes, nodes[n].parent.value) < Up(nodes, n)
    ensures Down(nodes, nodes[n].parent.value) > Down(nodes, n)
  {
    assert Linked(nodes, Ranking(nodes).0, n);
  }

  /** The breadcrumb query: the ids from the root down to n. */
  function Path(nodes: Nodes, n: NodeId): (path: seq<NodeId>)
    requires Forest(nodes) && n in nodes
    ensures path != [] && path[|path| - 1] == n
    ensures forall x :: x in path ==> x in nodes
    decreases Up(nodes, n)
  {
    match nodes[n].parent
    case None => [n]
    case Some(p) =>
      ParentRanks(nodes, n);
      Path(nodes, p) + [n]
  }

  /** The ancestry query: a is n or one of its ancestors. */
  predicate Within(nodes: Nodes, n: NodeId, a: NodeId)
    requires Forest(nodes) && n in nodes
  {
    a in Path(nodes, n)
  }

  /** Ancestors rank no higher; only the node itself ranks equal. */
  lemma {:induction false} WithinRanks(nodes: Nodes, n: NodeId, a: NodeId)
    requires Forest(nodes) && n in nodes && Within(nodes, n, a)
    ensures a == n || Up(nodes, a) < Up(nodes, n)
    decreases Up(nodes, n)
  {
    if a != n {
      ParentRanks(nodes, n);
      WithinRanks(nodes, nodes[n].parent.value, a);
    }
  }

  /** A node is not inside the subtree of one of its children. */
  lemma {:induction false} NotBelowChild(nodes: Nodes, n: NodeId, k: NodeId)
    requires Forest(nodes) && n in nodes && k in nodes && nodes[k].parent == Some(n)
    ensures !Within(nodes, n, k)
  {
    ParentRanks(nodes, k);
    if Within(nodes, n, k) {
      WithinRanks(nodes, n, k);
    }
  }

  /** Two nodes with one parent never lie on the same breadcrumb. */
  lemma {:induction false} SiblingsOnPath(nodes: Nodes, n: NodeId, a: NodeId, b: NodeId)
    requires Forest(nodes) && n in nodes && Within(nodes, n, a) && Within(nodes, n, b)
    requires nodes[a].parent.Some? && nodes[a].parent == nodes[b].parent
    ensures a == b
    decreases Up(nodes, n)
  {
    if a != n && b != n {
      ParentRanks(nodes, n);
      SiblingsOnPath(nodes, nodes[n].parent.value, a, b);
    } else if a != b {
      // one of them is n itself, so the other would lie above n's parent
      var other := if a == n then b else a;
      ParentRanks(nodes, n);
      WithinRanks(nodes, nodes[n].parent.value, other);
      ParentRanks(nodes, other);
    }
  }

  /** A breadcrumb starts at a node without parent and follows parent links. */
  lemma {:induction false} PathFollowsParents(nodes: Nodes, n: NodeId)
    requires Forest(nodes) && n in nodes
    ensures nodes[Path(nodes, n)[0]].parent == None
    ensures forall i :: 0 < i < |Path(nodes, n)| ==> nodes[Path(nodes, n)[i]].parent == Some(Path(nodes, n)[i - 1])
    ensures forall i, j :: 0 <= i < j < |Path(nodes, n)| ==> Path(nodes, n)[i] != Path(nodes, n)[j]
    decreases Up(nodes, n)
  {
    if nodes[n].parent.Some? {
      ParentRanks(nodes, n);
      PathFollowsParents(nodes, nodes[n].parent.value);
      if n in Path(nodes, nodes[n].parent.value) {
        WithinRanks(nodes, nodes[n].parent.value, n);
      }
      assert n !in Path(nodes, nodes[n].parent.value);
    }
  }

  /** Ancestry is transitive. */
  lemma {:induction false} WithinTransitive(nodes: Nodes, n: NodeId, m: NodeId, a: NodeId)
    requires Forest(nodes) && n in nodes && m in nodes
    requires Within(nodes, n, m) && Within(nodes, m, a)
    ensures Within(nodes, n, a)
    decreases Up(nodes, n)
  {
    if n != m {
      ParentRanks(nodes, n);
      WithinTransitive(nodes, nodes[n].parent.value, m, a);
    }
  }

  // ------------------------------------------------------------------
  // Children in sibling order
  // ------------------------------------------------------------------

  function Kids(nodes: Nodes, p: NodeId): set<NodeId> {
    set n | n in nodes && nodes[n].parent == Some(p)
  }

  /** Sibling order; equal sibling_order values fall back on insertion order. */
  predicate Before(nodes: Nodes, a: NodeId, b: NodeId)
    requires a in nodes && b in nodes
  {
    nodes[a].order < nodes[b].order || (nodes[a].order == nodes[b].order && a < b)
  }

  ghost predicate Listing(nodes: Nodes, S: set<NodeId>, s: seq<NodeId>) {
    && S <= nodes.Keys
    && (forall x :: x in s <==> x in S)
    && (forall i, j :: 0 <= i < j < |s| ==> Before(nodes, s[i], s[j]))
  }

  lemma {:induction false} FirstExists(nodes: Nodes, S: set<NodeId>)
    requires S != {} && S <= nodes.Keys
    ensures exists m :: IsFirst(nodes, S, m)
  {
    var key := (n: NodeId) => if n in nodes then nodes[n].order else 0;
    ForemostExists(S, key);
    var m :| Foremost(S, key, m);
    assert IsFirst(nodes, S, m);
  }

  ghost predicate IsFirst(nodes: Nodes, S: set<NodeId>, m: NodeId)
    requires S <= nodes.Keys
  {
    m in S && forall k :: k in S && k != m ==> Before(nodes, m, k)
  }

  function First(nodes: Nodes, S: set<NodeId>): (m: NodeId)
    requires S != {} && S <= nodes.Keys
    ensures m in S
  {
    FirstExists(nodes, S);
    var m :| m in S && forall k :: k in S && k != m ==> Before(nodes, m, k);
    m
  }

  function Sorted(nodes: Nodes, S: set<NodeId>): (s: seq<NodeId>)
    requires S <= nodes.Keys
  {
    if S == {} then [] else [First(nodes, S)] + Sorted(nodes, S - {First(nodes, S)})
  }

  lemma {:induction false} SortedListing(nodes: Nodes, S: set<NodeId>)
    requires S <= nodes.Keys
    ensures Listing(nodes, S, Sorted(nodes, S))
  {
    if S != {} {
      FirstExists(nodes, S);
      var s := Sorted(nodes, S);
      SortedListing(nodes, S - {s[0]});
      assert s[1..] == Sorted(nodes, S - {s[0]});
      forall x ensures x in s <==> x in S {
        assert x in s <==> x == s[0] || x in s[1..];
      }
      forall i, j | 0 <= i < j < |s| ensures Before(nodes, s[i], s[j]) {
        assert s[j] in s[1..] && (i > 0 ==> Before(nodes, s[1..][i - 1], s[1..][j - 1]));
      }
    }
  }

  /** The query for the children of p ordered by sibling_order. */
  function Children(nodes: Nodes, p: NodeId): (kids: seq<NodeId>)
    ensures AreKids(nodes, p, kids)
  {
    ChildrenListedAux(nodes, p);
    Sorted(nodes, Kids(nodes, p))
  }

  predicate AreKids(nodes: Nodes, p: NodeId, kids: seq<NodeId>) {
    forall i :: 0 <= i < |kids| ==> kids[i] in nodes && nodes[kids[i]].parent == Some(p)
  }

  lemma {:induction false} ChildrenListedAux(nodes: Nodes, p: NodeId)
    ensures AreKids(nodes, p, Sorted(nodes, Kids(nodes, p)))
  {
    SortedListing(nodes, Kids(nodes, p));
    var kids := Sorted(nodes, Kids(nodes, p));
    forall i | 0 <= i < |kids| ensures kids[i] in nodes && nodes[kids[i]].parent == Some(p) {
      assert kids[i] in kids && kids[i] in Kids(nodes, p);
    }
  }

  lemma {:induction false} ChildrenListed(nodes: Nodes, p: NodeId)
    ensures Listing(nodes, Kids(nodes, p), Children(nodes, p))
  {
    SortedListing(nodes, Kids(nodes, p));
  }

  lemma {:induction false} ListingTail(nodes: Nodes, S: set<NodeId>, s: seq<NodeId>)
    requires s != [] && Listing(nodes, S, s)
    ensures Listing(nodes, S - {s[0]}, s[1..])
  {
    var t := s[1..];
    forall x
      ensures x in t <==> x in S - {s[0]}
    {
      if x in t {
        var i :| 0 <= i < |t| && t[i] == x;
        assert s[i + 1] == x && Before(nodes, s[0], s[i + 1]);
      }
    }
  }

  lemma {:induction false} ListingSize(nodes: Nodes, S: set<NodeId>, s: seq<NodeId>)
    requires Listing(nodes, S, s)
    ensures |s| == |S|
    decreases |s|
  {
    if s == [] {
      assert S == {};
    } else {
      ListingTail(nodes, S, s);
      ListingSize(nodes, S - {s[0]}, s[1..]);
      assert s[0] in S;
    }
  }

  lemma {:induction false} ListingUnique(nodes: Nodes, S: set<NodeId>, s: seq<NodeId>, t: seq<NodeId>)
    requires Listing(nodes, S, s) && Listing(nodes, S, t)
    ensures s == t
    decreases |s|
  {
    ListingSize(nodes, S, s);
    ListingSize(nodes, S, t);
    if s != [] {
      assert s[0] in t && t[0] in s;
      assert s[0] == t[0];
      ListingTail(nodes, S, s);
      ListingTail(nodes, S, t);
      ListingUnique(nodes, S - {s[0]}, s[1..], t[1..]);
      assert s == [s[0]] + s[1..] && t == [t[0]] + t[1..];
    }
  }

  /** Any strictly ordered list of exactly the children is what the query returns. */
  lemma {:induction false} ChildrenAre(nodes: Nodes, p: NodeId, s: seq<NodeId>)
    requires Listing(nodes, Kids(nodes, p), s)
    ensures Children(nodes, p) == s
  {
    ChildrenListed(nodes, p);
    ListingUnique(nodes, Kids(nodes, p), s, Children(nodes, p));
  }

  lemma {:induction false} ChildCount(nodes: Nodes, p: NodeId)
    ensures |Children(nodes, p)| == |Kids(nodes, p)|
  {
    ChildrenListed(nodes, p);
    ListingSize(nodes, Kids(nodes, p), Children(nodes, p));
  }

  // ------------------------------------------------------------------
  // Depth-first collection
  // ------------------------------------------------------------------

  /** A complete node with content contributes one section. */
  predicate Contributes(node: Node) {
    node.status == Complete && Truthy(node.content)
  }

  function Own(nodes: Nodes, n: NodeId): seq<NodeId>
    requires n in nodes
  {
    if Contributes(nodes[n]) then [n] else []
  }

  function Flatten(parts: seq<seq<NodeId>>): seq<NodeId> {
    if parts == [] then [] else parts[0] + Flatten(parts[1..])
  }

  /** The nodes whose content the depth-first walk from n appends, in order. */
  function Collect(nodes: Nodes, n: NodeId): seq<NodeId>
    requires Forest(nodes) && n in nodes
    decreases Down(nodes, n), 1
  {
    Own(nodes, n) + Flatten(Parts(nodes, n, Children(nodes, n)))
  }

  /** What each listed child collects. */
  function Parts(nodes: Nodes, p: NodeId, kids: seq<NodeId>): (parts: seq<seq<NodeId>>)
    requires Forest(nodes) && p in nodes && AreKids(nodes, p, kids)
    ensures |parts| == |kids|
    decreases Down(nodes, p), 0
  {
    seq(|kids|, i requires 0 <= i < |kids| =>
      ParentRanks(nodes, kids[i]);
      Collect(nodes, kids[i]))
  }

  /** The section texts for a list of collected nodes. */
  function Texts(nodes: Nodes, ids: seq<NodeId>): seq<string>
    requires forall x :: x in ids ==> x in nodes && nodes[x].content.Some?
  {
    seq(|ids|, i requires 0 <= i < |ids| => nodes[ids[i]].content.value)
  }

  lemma {:induction false} FlattenAppend(a: seq<seq<NodeId>>, b: seq<seq<NodeId>>)
    ensures Flatten(a + b) == Flatten(a) + Flatten(b)
  {
    if a == [] {
      assert a + b == b;
    } else {
      assert (a + b)[1..] == a[1..] + b;
      FlattenAppend(a[1..], b);
    }
  }

  lemma {:induction false} FlattenOne(part: seq<NodeId>)
    ensures Flatten([part]) == part
  {
    assert [part][1..] == [];
    assert part + [] == part;
  }

  lemma {:induction false} FlattenFinds(parts: seq<seq<NodeId>>, x: NodeId)
    ensures x in Flatten(parts) <==> exists i :: 0 <= i < |parts| && x in parts[i]
  {
    if parts != [] {
      FlattenFinds(parts[1..], x);
      if i :| 0 <= i < |parts[1..]| && x in parts[1..][i] {
        assert x in parts[i + 1];
      }
      if i :| 0 < i < |parts| && x in parts[i] {
        assert x in parts[1..][i - 1];
      }
    }
  }

  /** The child of n on the breadcrumb of its proper descendant x. */
  lemma {:induction false} Branch(nodes: Nodes, x: NodeId, n: NodeId) returns (k: NodeId)
    requires Forest(nodes) && x in nodes && n in nodes && x != n && Within(nodes, x, n)
    ensures k in Kids(nodes, n) && Within(nodes, x, k)
    decreases Up(nodes, x)
  {
    var p := nodes[x].parent.value;
    ParentRanks(nodes, x);
    if p == n {
      k := x;
    } else {
      k := Branch(nodes, p, n);
    }
  }

  /** The walk from n finds exactly the contributing nodes of n's subtree. */
  lemma {:induction false} CollectFinds(nodes: Nodes, n: NodeId, x: NodeId)
    requires Forest(nodes) && n in nodes
    ensures x in Collect(nodes, n) <==> x in nodes && Within(nodes, x, n) && Contributes(nodes[x])
    decreases Down(nodes, n)
  {
    var kids := Children(nodes, n);
    var parts := Parts(nodes, n, kids);
    FlattenFinds(parts, x);
    forall i | 0 <= i < |kids|
      ensures x in parts[i] <==> x in nodes && Within(nodes, x, kids[i]) && Contributes(nodes[x])
      ensures x in nodes && Within(nodes, x, kids[i]) ==> Within(nodes, x, n)
    {
      ParentRanks(nodes, kids[i]);
      CollectFinds(nodes, kids[i], x);
      if x in nodes {
        WithinStep(nodes, x, kids[i], n);
      }
    }
    if x in nodes && x != n && Within(nodes, x, n) {
      var k := Branch(nodes, x, n);
      ChildrenListed(nodes, n);
      assert k in kids;
    }
  }

  lemma {:induction false} WithinStep(nodes: Nodes, x: NodeId, k: NodeId, p: NodeId)
    requires Forest(nodes) && x in nodes && k in nodes && nodes[k].parent == Some(p)
    ensures Within(nodes, x, k) ==> p in nodes && Within(nodes, x, p)
  {
    ParentRanks(nodes, k);
    if Within(nodes, x, k) {
      assert Within(nodes, k, p);
      WithinTransitive(nodes, x, k, p);
    }
  }

  ghost predicate Distinct(s: seq<NodeId>) {
    forall i, j :: 0 <= i < j < |s| ==> s[i] != s[j]
  }

  lemma {:induction false} DistinctAppend(a: seq<NodeId>, b: seq<NodeId>)
    requires Distinct(a) && Distinct(b) && forall x :: x in a ==> x !in b
    ensures Distinct(a + b)
  {
    forall i, j | 0 <= i < j < |a + b| ensures (a + b)[i] != (a + b)[j] {
      if i < |a| <= j {
        assert a[i] in a && b[j - |a|] in b;
      }
    }
  }

  lemma {:induction false} FlattenDistinct(parts: seq<seq<NodeId>>)
    requires forall i :: 0 <= i < |parts| ==> Distinct(parts[i])
    requires forall i, j :: 0 <= i < j < |parts| ==> forall x :: x in parts[i] ==> x !in parts[j]
    ensures Distinct(Flatten(parts))
  {
    if parts != [] {
      FlattenDistinct(parts[1..]);
      forall x | x in parts[0] ensures x !in Flatten(parts[1..]) {
        FlattenFinds(parts[1..], x);
      }
      DistinctAppend(parts[0], Flatten(parts[1..]));
    }
  }

  /** No node is collected twice. */
  lemma {:induction false} CollectDistinct(nodes: Nodes, n: NodeId)
    requires Forest(nodes) && n in nodes
    ensures Distinct(Collect(nodes, n))
    decreases Down(nodes, n)
  {
    var kids := Children(nodes, n);
    var parts := Parts(nodes, n, kids);
    forall i | 0 <= i < |kids|
      ensures Distinct(parts[i]) && n !in parts[i]
    {
      ParentRanks(nodes, kids[i]);
      CollectDistinct(nodes, kids[i]);
      CollectFinds(nodes, kids[i], n);
      NotBelowChild(nodes, n, kids[i]);
    }
    forall i, j | 0 <= i < j < |parts|
      ensures forall x :: x in parts[i] ==> x !in parts[j]
    {
      SiblingsDisjoint(nodes, n, i, j);
      assert parts[i] == Collect(nodes, kids[i]) && parts[j] == Collect(nodes, kids[j]);
    }
    FlattenDistinct(parts);
    FlattenFinds(parts, n);
    DistinctAppend(Own(nodes, n), Flatten(parts));
  }

  lemma {:induction false} SiblingsDisjoint(nodes: Nodes, n: NodeId, i: nat, j: nat)
    requires Forest(nodes) && n in nodes && i < j < |Children(nodes, n)|
    ensures var kids := Children(nodes, n);
            forall x :: x in Collect(nodes, kids[i]) ==> x !in Collect(nodes, kids[j])
  {
    var kids := Children(nodes, n);
    ChildrenListed(nodes, n);
    assert Before(nodes, kids[i], kids[j]);
    forall x | x in Collect(nodes, kids[i]) ensures x !in Collect(nodes, kids[j]) {
      CollectFinds(nodes, kids[i], x);
      CollectFinds(nodes, kids[j], x);
      if x in Collect(nodes, kids[j]) {
        SiblingsOnPath(nodes, x, kids[i], kids[j]);
      }
    }
  }
}
