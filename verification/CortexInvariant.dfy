/** What every reachable state of the store satisfies. */
module CortexInvariant {
  import opened Basics
  import opened CortexModel
  import opened CortexMoves
  import opened CortexRegroup
  import opened CortexState

  // ------------------------------------------------------------------
  // The invariant
  // ------------------------------------------------------------------

  /** A parent lies in the same tree and, if the task was described, has a summary. */
  ghost predicate ParentOk(db: Db, n: NodeId)
    requires n in db.nodes
  {
    match db.nodes[n].parent
    case None => true
    case Some(p) =>
      && p in db.nodes
      && db.nodes[p].tree == db.nodes[n].tree
      && (Truthy(db.nodes[p].summary) || RootOfUndescribed(db, p))
  }

  ghost predicate RootOfUndescribed(db: Db, n: NodeId)
    requires n in db.nodes
  {
    var node := db.nodes[n];
    node.parent == None && node.tree in db.trees && db.trees[node.tree].description == ""
  }

  ghost predicate Shape(db: Db) {
    && Forest(db.nodes)
    && db.tally.Keys == db.nodes.Keys
    && (forall n :: n in db.nodes ==> n < db.nextNode)
    && (forall t :: t in db.trees ==> t < db.nextTree)
    && (forall n :: n in db.nodes ==> db.nodes[n].tree in db.trees)
    && (forall n {:trigger ParentOk(db, n)} :: n in db.nodes ==> ParentOk(db, n))
  }

  function NodesOf(nodes: Nodes, t: TreeId): set<NodeId> {
    set n | n in nodes && nodes[n].tree == t
  }

  /** One tree record agrees with the nodes: one root, an exact count, a cursor inside. */
  ghost predicate TreeOk(db: Db, t: TreeId)
    requires t in db.trees
  {
    var tree := db.trees[t];
    && tree.root in db.nodes && db.nodes[tree.root].tree == t && db.nodes[tree.root].parent == None
    && tree.outputRoot in db.nodes && db.nodes[tree.outputRoot].tree == t
    && tree.cursor in db.nodes && db.nodes[tree.cursor].tree == t
    && tree.total == |NodesOf(db.nodes, t)|
    && (forall n :: n in db.nodes && db.nodes[n].tree == t && db.nodes[n].parent == None ==> n == tree.root)
  }

  ghost predicate Trees(db: Db) {
    forall t {:trigger TreeOk(db, t)} :: t in db.trees ==> TreeOk(db, t)
  }

  function Cap(maxChildren: int): int {
    if maxChildren < 4 then 4 else maxChildren
  }

  function Limit(db: Db, n: NodeId): int
    requires n in db.nodes && db.nodes[n].tree in db.trees
  {
    db.trees[db.nodes[n].tree].maxChildren
  }

  /** The viewport of a node is bounded. */
  ghost predicate Bounded(db: Db, n: NodeId)
    requires n in db.nodes && db.nodes[n].tree in db.trees
  {
    |Kids(db.nodes, n)| <= Cap(Limit(db, n))
  }

  /** How often n and its ancestors were moved under groups. */
  ghost function Moves(nodes: Nodes, tally: map<NodeId, Tally>, n: NodeId): nat
    requires Forest(nodes) && n in nodes && tally.Keys == nodes.Keys
    decreases Up(nodes, n)
  {
    tally[n].moves +
    match nodes[n].parent
    case None => 0
    case Some(p) =>
      ParentRanks(nodes, n);
      Moves(nodes, tally, p)
  }

  /** True depth is stored depth plus the moves along the breadcrumb. */
  ghost predicate DepthExact(db: Db, n: NodeId)
    requires Shape(db) && n in db.nodes
  {
    |Path(db.nodes, n)| - 1 == db.nodes[n].depth + Moves(db.nodes, db.tally, n)
  }

  /** What that many groups have taken out of a viewport, each putting itself back. */
  ghost function Absorbed(M: int, groups: nat): int {
    if groups == 0 then 0 else Absorbed(M, groups - 1) + M / 2 - 1
  }

  lemma {:induction false} AbsorbedProduct(M: int, groups: nat)
    ensures Absorbed(M, groups) == groups * (M / 2 - 1)
  {
    if groups > 0 {
      AbsorbedProduct(M, groups - 1);
      assert groups * (M / 2 - 1) == (groups - 1) * (M / 2 - 1) + (M / 2 - 1);
    }
  }

  /** Children k are accounted for: each group took half of a full viewport and put itself back. */
  ghost predicate Balanced(M: int, k: nat, tally: Tally) {
    M >= 4 ==>
      && k + Absorbed(M, tally.groups) == tally.seeds + tally.writes
      && tally.seeds <= k
      && (tally.seeds <= 3 || tally.seeds <= M / 2)
  }

  ghost predicate Accounted(db: Db, n: NodeId)
    requires n in db.nodes && n in db.tally && db.nodes[n].tree in db.trees
  {
    Balanced(Limit(db, n), |Kids(db.nodes, n)|, db.tally[n])
  }

  ghost predicate NodeOk(db: Db, n: NodeId)
    requires Shape(db) && n in db.nodes
  {
    Bounded(db, n) && DepthExact(db, n) && Accounted(db, n)
  }

  ghost predicate Inv(db: Db) {
    && Shape(db)
    && Trees(db)
    && (forall n {:trigger NodeOk(db, n)} :: n in db.nodes ==> NodeOk(db, n))
  }

  lemma {:induction false} InvSound(db: Db)
    requires Inv(db)
    ensures Sound(db)
  {
    forall t | t in db.trees ensures db.trees[t].cursor in db.nodes {
      assert TreeOk(db, t);
    }
  }

  // ------------------------------------------------------------------
  // Reclustering
  // ------------------------------------------------------------------

  lemma {:induction false} GroupedIsRegrouped(nodes: Nodes, p: NodeId, half: nat, g: NodeId, group: Node)
    requires p in nodes && 1 <= half <= |Children(nodes, p)|
    requires Fresh(nodes, g, group) && group.parent == Some(p) && group.order == 0 && !Contributes(group)
    ensures Regrouped(nodes, GroupedNodes(nodes, Children(nodes, p), half, g, group), p, half, g, group)
  {
    var kids := Children(nodes, p);
    ChildrenListed(nodes, p);
    forall i | 0 <= i < |kids| ensures kids[i] in kids && Index(kids, kids[i]) == i {
      var j := Index(kids, kids[i]);
    }
    forall x | x in nodes && nodes[x].parent != Some(p) ensures x !in kids {
      assert x in kids ==> x in Kids(nodes, p);
    }
  }

  /** The surgery that Recluster performs when it does anything. */
  ghost predicate Reclustered(db: Db, after: Db, p: NodeId, half: nat) {
    && Shape(db) && p in db.nodes
    && Truthy(db.nodes[p].summary)
    && (exists group :: GroupFits(db, after, p, half, group))
    && after.trees == (var t := db.nodes[p].tree; db.trees[t := db.trees[t].(total := db.trees[t].total + 1)])
    && after.nextNode == db.nextNode + 1 && after.nextTree == db.nextTree
    && after.tally == GroupedTally(db.tally, p, Children(db.nodes, p)[..half], db.nextNode)
  }

  lemma {:induction false} ReclusterIs(db: Db, p: NodeId)
    requires Shape(db) && p in db.nodes && Truthy(db.nodes[p].summary)
    ensures var n := |Children(db.nodes, p)|;
            if n < Limit(db, p) || n / 2 == 0 then Recluster(db, p) == db
            else Reclustered(db, Recluster(db, p), p, n / 2)
  {
    var kids := Children(db.nodes, p);
    if |kids| >= Limit(db, p) && |kids| / 2 != 0 {
      GroupedIsRegrouped(db.nodes, p, |kids| / 2, db.nextNode, GroupNode(db, p, kids));
      assert GroupFits(db, Recluster(db, p), p, |kids| / 2, GroupNode(db, p, kids));
    }
  }

  lemma {:induction false} ReclusteredShape(db: Db, after: Db, p: NodeId, half: nat)
    requires Reclustered(db, after, p, half)
    ensures Shape(after)
  {
    var g := db.nextNode;
    var group :| GroupFits(db, after, p, half, group);
    RegroupForest(db.nodes, after.nodes, p, half, g, group);
    forall n | n in after.nodes
      ensures n < after.nextNode && after.nodes[n].tree in after.trees && ParentOk(after, n)
    {
      RegroupFields(db.nodes, after.nodes, p, half, g, group, p);
      if n != g {
        RegroupFields(db.nodes, after.nodes, p, half, g, group, n);
        assert ParentOk(db, n);
        if db.nodes[n].parent.Some? {
          RegroupFields(db.nodes, after.nodes, p, half, g, group, db.nodes[n].parent.value);
        }
      }
    }
  }

  ghost predicate GroupFits(db: Db, after: Db, p: NodeId, half: nat, group: Node) {
    && p in db.nodes
    && Regrouped(db.nodes, after.nodes, p, half, db.nextNode, group)
    && group.tree == db.nodes[p].tree && group.depth == db.nodes[p].depth + 1 && Truthy(group.summary)
  }

  lemma {:induction false} ReclusteredTrees(db: Db, after: Db, p: NodeId, half: nat)
    requires Reclustered(db, after, p, half) && Trees(db)
    ensures Trees(after)
  {
    var g, q := db.nextNode, db.nodes[p].tree;
    var group :| GroupFits(db, after, p, half, group);
    forall n | n in db.nodes
      ensures after.nodes[n].tree == db.nodes[n].tree
      ensures after.nodes[n].parent == None <==> db.nodes[n].parent == None
    {
      RegroupFields(db.nodes, after.nodes, p, half, g, group, n);
    }
    forall t | t in after.trees ensures TreeOk(after, t) {
      assert TreeOk(db, t);
      GrownTree(db, after, g, group, q, t);
    }
  }

  lemma {:induction false} GrownTree(db: Db, after: Db, g: NodeId, group: Node, q: TreeId, t: TreeId)
    requires t in db.trees && TreeOk(db, t) && q in db.trees && g !in db.nodes
    requires after.nodes.Keys == db.nodes.Keys + {g} && after.nodes[g] == group
    requires group.tree == q && group.parent.Some?
    requires forall n :: n in db.nodes ==>
               && after.nodes[n].tree == db.nodes[n].tree
               && (after.nodes[n].parent == None <==> db.nodes[n].parent == None)
    requires after.trees == db.trees[q := db.trees[q].(total := db.trees[q].total + 1)]
    ensures TreeOk(after, t)
  {
    assert NodesOf(after.nodes, t) == NodesOf(db.nodes, t) + if t == q then {g} else {};
  }

  /** Each moved child, and everything below it, sinks by exactly one level. */
  lemma {:induction false} ReclusteredMoves(db: Db, after: Db, p: NodeId, half: nat, group: Node, n: NodeId)
    requires Reclustered(db, after, p, half) && GroupFits(db, after, p, half, group)
    requires Shape(after) && n in db.nodes
    ensures |Path(after.nodes, n)| + Moves(db.nodes, db.tally, n)
         == |Path(db.nodes, n)| + Moves(after.nodes, after.tally, n)
    decreases Up(db.nodes, n)
  {
    var g := db.nextNode;
    var moved := Children(db.nodes, p)[..half];
    RegroupFields(db.nodes, after.nodes, p, half, g, group, n);
    if db.nodes[n].parent.Some? {
      var q := db.nodes[n].parent.value;
      ParentRanks(db.nodes, n);
      ParentRanks(after.nodes, n);
      ReclusteredMoves(db, after, p, half, group, q);
      assert n in moved ==> n != p;
      if n in moved {
        ParentRanks(after.nodes, g);
        assert |Path(after.nodes, n)| == |Path(after.nodes, g)| + 1;
      }
    }
  }

  lemma {:induction false} ReclusteredDepth(db: Db, after: Db, p: NodeId, half: nat, n: NodeId)
    requires Reclustered(db, after, p, half) && Shape(after) && n in after.nodes
    requires DepthExact(db, p) && (n in db.nodes ==> DepthExact(db, n))
    ensures DepthExact(after, n)
  {
    var group :| GroupFits(db, after, p, half, group);
    if n == db.nextNode {
      ReclusteredMoves(db, after, p, half, group, p);
      ReclusteredGroupDepth(db, after, p, half, group);
    } else {
      ReclusteredOldDepth(db, after, p, half, group, n);
    }
  }

  lemma {:induction false} ReclusteredOldDepth(db: Db, after: Db, p: NodeId, half: nat, group: Node, n: NodeId)
    requires Reclustered(db, after, p, half) && GroupFits(db, after, p, half, group) && Shape(after)
    requires n in db.nodes && DepthExact(db, n)
    ensures DepthExact(after, n)
  {
    ReclusteredMoves(db, after, p, half, group, n);
    RegroupFields(db.nodes, after.nodes, p, half, db.nextNode, group, n);
  }

  lemma {:induction false} ReclusteredGroupDepth(db: Db, after: Db, p: NodeId, half: nat, group: Node)
    requires Reclustered(db, after, p, half) && GroupFits(db, after, p, half, group) && Shape(after)
    requires DepthExact(db, p)
    requires |Path(after.nodes, p)| + Moves(db.nodes, db.tally, p)
          == |Path(db.nodes, p)| + Moves(after.nodes, after.tally, p)
    ensures DepthExact(after, db.nextNode)
  {
    ParentRanks(after.nodes, db.nextNode);
    assert |Path(after.nodes, db.nextNode)| == |Path(after.nodes, p)| + 1;
    assert Moves(after.nodes, after.tally, db.nextNode) == Moves(after.nodes, after.tally, p);
  }

  lemma {:induction false} ReclusteredCounts(db: Db, after: Db, p: NodeId, half: nat, n: NodeId)
    requires Reclustered(db, after, p, half) && n in after.nodes
    ensures |Kids(after.nodes, n)| == if n == p then |Kids(db.nodes, p)| - half + 1
                                      else if n == db.nextNode then half
                                      else |Kids(db.nodes, n)|
  {
    var group :| GroupFits(db, after, p, half, group);
    RegroupChildren(db.nodes, after.nodes, p, half, db.nextNode, group, n);
    ChildCount(after.nodes, n);
    ChildCount(db.nodes, n);
    ChildCount(db.nodes, p);
  }

  /** After the moves of a full viewport there is room for one more child. */
  lemma {:induction false} ReclusteredBounded(db: Db, after: Db, p: NodeId, half: nat, n: NodeId)
    requires Reclustered(db, after, p, half) && half == |Kids(db.nodes, p)| / 2
    requires Shape(after) && n in after.nodes
    requires Bounded(db, p) && (n in db.nodes ==> Bounded(db, n))
    ensures Bounded(after, n)
    ensures n == p ==> |Kids(after.nodes, p)| + 1 <= Cap(Limit(after, p))
  {
    ReclusteredTally(db, after, p, half, n);
    ReclusteredCounts(db, after, p, half, n);
    ReclusteredSize(db, after, p, half);
  }

  lemma {:induction false} ReclusteredSize(db: Db, after: Db, p: NodeId, half: nat)
    requires Reclustered(db, after, p, half)
    ensures 1 <= half <= |Kids(db.nodes, p)|
  {
    ChildCount(db.nodes, p);
  }

  lemma {:induction false} ReclusteredTally(db: Db, after: Db, p: NodeId, half: nat, n: NodeId)
    requires Reclustered(db, after, p, half) && Shape(after) && n in after.nodes
    ensures Limit(after, n) == Limit(db, if n == db.nextNode then p else n)
    ensures n == db.nextNode ==> after.tally[n] == Tally(0, 0, half, 0)
    ensures n == p ==> after.tally[n] == db.tally[p].(groups := db.tally[p].groups + 1)
    ensures n != p && n != db.nextNode ==>
              after.tally[n].(moves := 0) == db.tally[n].(moves := 0)
  {
    var group :| GroupFits(db, after, p, half, group);
    if n != db.nextNode {
      RegroupFields(db.nodes, after.nodes, p, half, db.nextNode, group, n);
    }
  }

  lemma {:induction false} ReclusteredAccounted(db: Db, after: Db, p: NodeId, half: nat, n: NodeId)
    requires Reclustered(db, after, p, half) && half == |Kids(db.nodes, p)| / 2
    requires Shape(after) && n in after.nodes
    requires |Kids(db.nodes, p)| >= Limit(db, p)
    requires Bounded(db, p) && Accounted(db, p)
    requires n in db.nodes ==> Accounted(db, n)
    ensures Accounted(after, n)
  {
    ReclusteredTally(db, after, p, half, n);
    ReclusteredCounts(db, after, p, half, n);
    var M, k := Limit(db, p), |Kids(db.nodes, p)|;
    if n == p {
      BalancedAfterGroup(M, k, db.tally[p]);
    } else if n == db.nextNode {
      HalfIsSmall(M, k);
      BalancedFromStart(M, half);
    } else {
      BalancedAlike(Limit(db, n), |Kids(db.nodes, n)|, db.tally[n], after.tally[n]);
    }
  }

  lemma {:induction false} HalfIsSmall(M: int, k: nat)
    requires M <= k <= Cap(M)
    ensures k / 2 <= 3 || k / 2 <= M / 2
  {
  }

  lemma {:induction false} BalancedAlike(M: int, k: nat, tally: Tally, other: Tally)
    requires Balanced(M, k, tally) && other.(moves := 0) == tally.(moves := 0)
    ensures Balanced(M, k, other)
  {
  }

  lemma {:induction false} BalancedFromStart(M: int, half: nat)
    requires half <= 3 || half <= M / 2 || M < 4
    ensures Balanced(M, half, Tally(0, 0, half, 0))
  {
  }

  lemma {:induction false} BalancedAfterGroup(M: int, k: nat, tally: Tally)
    requires Balanced(M, k, tally) && M <= k <= Cap(M)
    ensures Balanced(M, k - k / 2 + 1, tally.(groups := tally.groups + 1))
  {
  }
}
