/** New nodes, new trees and plain updates keep the invariant. */
module CortexGrowth {
  import opened Basics
  import opened CortexModel
  import opened CortexMoves
  import opened CortexState
  import opened CortexInvariant

  // ------------------------------------------------------------------
  // Records beside the nodes
  // ------------------------------------------------------------------

  /** Only tree records and counters differ, and no node sees a difference in them. */
  ghost predicate Adjusted(db: Db, after: Db) {
    && after.nodes == db.nodes && after.nextNode == db.nextNode
    && (forall t :: t in db.trees ==>
          && t in after.trees
          && after.trees[t].maxChildren == db.trees[t].maxChildren
          && after.trees[t].description == db.trees[t].description)
    && (forall t :: t in after.trees ==> t < after.nextTree)
    && after.tally.Keys == db.tally.Keys
    && (forall n :: n in db.tally ==> after.tally[n].moves == db.tally[n].moves)
  }

  lemma {:induction false} AdjustedShape(db: Db, after: Db)
    requires Shape(db) && Adjusted(db, after)
    ensures Shape(after)
  {
    forall n | n in after.nodes ensures ParentOk(after, n) && after.nodes[n].tree in after.trees {
      assert ParentOk(db, n);
    }
  }

  lemma {:induction false} AdjustedMoves(db: Db, after: Db, n: NodeId)
    requires Shape(db) && Shape(after) && Adjusted(db, after) && n in db.nodes
    ensures Moves(after.nodes, after.tally, n) == Moves(db.nodes, db.tally, n)
    ensures DepthExact(after, n) <==> DepthExact(db, n)
    decreases Up(db.nodes, n)
  {
    if db.nodes[n].parent.Some? {
      ParentRanks(db.nodes, n);
      AdjustedMoves(db, after, db.nodes[n].parent.value);
    }
  }

  // ------------------------------------------------------------------
  // One more node
  // ------------------------------------------------------------------

  ghost predicate Fitting(db: Db, node: Node) {
    && Shape(db) && node.tree in db.trees
    && match node.parent
       case None => node.depth == 0
       case Some(p) =>
         && p in db.nodes && db.nodes[p].tree == node.tree && node.depth == db.nodes[p].depth + 1
         && (Truthy(db.nodes[p].summary) || RootOfUndescribed(db, p))
  }

  lemma {:induction false} CreatedShape(db: Db, node: Node)
    requires Fitting(db, node)
    ensures Shape(CreateNode(db, node))
  {
    var after := CreateNode(db, node);
    InsertForest(db.nodes, db.nextNode, node);
    forall n | n in after.nodes ensures ParentOk(after, n) {
      if n in db.nodes {
        assert ParentOk(db, n);
      }
    }
  }

  lemma {:induction false} CreatedMoves(db: Db, node: Node, n: NodeId)
    requires Fitting(db, node) && Shape(CreateNode(db, node)) && n in db.nodes
    ensures var after := CreateNode(db, node);
            Moves(after.nodes, after.tally, n) == Moves(db.nodes, db.tally, n)
    decreases Up(db.nodes, n)
  {
    if db.nodes[n].parent.Some? {
      ParentRanks(db.nodes, n);
      CreatedMoves(db, node, db.nodes[n].parent.value);
    }
  }

  lemma {:induction false} CreatedDepth(db: Db, node: Node, n: NodeId)
    requires Fitting(db, node) && Shape(CreateNode(db, node)) && n in CreateNode(db, node).nodes
    requires forall m :: m in db.nodes ==> DepthExact(db, m)
    ensures DepthExact(CreateNode(db, node), n)
  {
    var after := CreateNode(db, node);
    var m := if n in db.nodes then n else if node.parent.Some? then node.parent.value else n;
    if m in db.nodes {
      CreatedMoves(db, node, m);
      InsertPath(db.nodes, db.nextNode, node, m);
      assert DepthExact(db, m);
    }
    if n !in db.nodes && node.parent.Some? {
      ParentRanks(after.nodes, n);
    }
  }

  lemma {:induction false} CreatedCounts(db: Db, node: Node, n: NodeId)
    requires Fitting(db, node) && n in CreateNode(db, node).nodes
    ensures |Kids(CreateNode(db, node).nodes, n)| ==
            if n == db.nextNode then 0 else |Kids(db.nodes, n)| + if node.parent == Some(n) then 1 else 0
  {
    if n in db.nodes {
      InsertKids(db.nodes, db.nextNode, node, n);
    } else {
      forall k | k in db.nodes && db.nodes[k].parent.Some? ensures db.nodes[k].parent != Some(n) {
        ParentRanks(db.nodes, k);
      }
      assert Kids(CreateNode(db, node).nodes, n) == {};
    }
  }

  lemma {:induction false} CreatedExact(db: Db, node: Node) returns (after: Db)
    requires Fitting(db, node) && forall m :: m in db.nodes ==> DepthExact(db, m)
    ensures after == CreateNode(db, node) && Shape(after)
    ensures forall m :: m in after.nodes ==> DepthExact(after, m)
  {
    after := CreateNode(db, node);
    CreatedShape(db, node);
    forall n | n in after.nodes ensures DepthExact(after, n) {
      CreatedDepth(db, node, n);
    }
  }

  // ------------------------------------------------------------------
  // A written child
  // ------------------------------------------------------------------

  lemma {:induction false} AddLeafInv(db: Db, t: TreeId, leaf: Node, p: NodeId)
    requires Inv(db) && leaf.parent == Some(p) && leaf.tree == t && Fitting(db, leaf)
    requires |Kids(db.nodes, p)| + 1 <= Cap(Limit(db, p))
    ensures Inv(AddLeaf(db, t, leaf))
  {
    AddLeafTrees(db, t, leaf, p);
    AddLeafDepths(db, t, leaf, p);
    var after := AddLeaf(db, t, leaf);
    forall n | n in after.nodes ensures NodeOk(after, n) {
      assert n in db.nodes ==> NodeOk(db, n);
      AddLeafCounts(db, t, leaf, p, n);
    }
  }

  lemma {:induction false} AddLeafDepths(db: Db, t: TreeId, leaf: Node, p: NodeId)
    requires Inv(db) && leaf.parent == Some(p) && leaf.tree == t && Fitting(db, leaf)
    ensures Shape(AddLeaf(db, t, leaf))
    ensures forall n :: n in AddLeaf(db, t, leaf).nodes ==> DepthExact(AddLeaf(db, t, leaf), n)
  {
    forall m | m in db.nodes ensures DepthExact(db, m) {
      assert NodeOk(db, m);
    }
    var made := CreatedExact(db, leaf);
    AddLeafAdjusts(db, t, leaf, p);
    AdjustedDepths(made, AddLeaf(db, t, leaf));
  }

  lemma {:induction false} AddLeafAdjusts(db: Db, t: TreeId, leaf: Node, p: NodeId)
    requires Shape(db) && leaf.parent == Some(p) && leaf.tree == t && Fitting(db, leaf)
    ensures Adjusted(CreateNode(db, leaf), AddLeaf(db, t, leaf))
  {
  }

  lemma {:induction false} AdjustedDepths(db: Db, after: Db)
    requires Shape(db) && Adjusted(db, after)
    requires forall n :: n in db.nodes ==> DepthExact(db, n)
    ensures Shape(after)
    ensures forall n :: n in after.nodes ==> DepthExact(after, n)
  {
    AdjustedShape(db, after);
    forall n | n in after.nodes ensures DepthExact(after, n) {
      AdjustedMoves(db, after, n);
    }
  }

  lemma {:induction false} AddLeafCounts(db: Db, t: TreeId, leaf: Node, p: NodeId, n: NodeId)
    requires Shape(db) && leaf.parent == Some(p) && leaf.tree == t && Fitting(db, leaf)
    requires Shape(AddLeaf(db, t, leaf)) && n in AddLeaf(db, t, leaf).nodes
    requires |Kids(db.nodes, p)| + 1 <= Cap(Limit(db, p))
    requires n in db.nodes ==> Bounded(db, n) && Accounted(db, n)
    ensures Bounded(AddLeaf(db, t, leaf), n) && Accounted(AddLeaf(db, t, leaf), n)
  {
    CreatedCounts(db, leaf, n);
    assert AddLeaf(db, t, leaf).nodes == CreateNode(db, leaf).nodes;
  }

  lemma {:induction false} AddLeafTrees(db: Db, t: TreeId, leaf: Node, p: NodeId)
    requires Shape(db) && Trees(db) && leaf.parent == Some(p) && leaf.tree == t && Fitting(db, leaf)
    ensures Trees(AddLeaf(db, t, leaf))
  {
    forall u | u in AddLeaf(db, t, leaf).trees ensures TreeOk(AddLeaf(db, t, leaf), u) {
      assert TreeOk(db, u);
      AddLeafTree(db, t, leaf, p, u);
    }
  }

  lemma {:induction false} AddLeafTree(db: Db, t: TreeId, leaf: Node, p: NodeId, u: TreeId)
    requires Shape(db) && leaf.parent == Some(p) && leaf.tree == t && Fitting(db, leaf)
    requires u in db.trees && TreeOk(db, u)
    ensures TreeOk(AddLeaf(db, t, leaf), u)
  {
    AddLeafSize(db.nodes, db.nextNode, leaf, u);
  }

  lemma {:induction false} AddLeafSize(nodes: Nodes, c: NodeId, leaf: Node, u: TreeId)
    requires c !in nodes
    ensures |NodesOf(nodes[c := leaf], u)| == |NodesOf(nodes, u)| + if u == leaf.tree then 1 else 0
  {
    assert NodesOf(nodes[c := leaf], u) == NodesOf(nodes, u) + if u == leaf.tree then {c} else {};
  }

  // ------------------------------------------------------------------
  // Status and cursor updates
  // ------------------------------------------------------------------

  /** Node statuses, tree statuses and cursors may differ; a cursor stays inside its tree. */
  ghost predicate Restated(db: Db, after: Db) {
    && after.nodes.Keys == db.nodes.Keys
    && (forall n :: n in db.nodes ==> after.nodes[n] == db.nodes[n].(status := after.nodes[n].status))
    && after.nextNode == db.nextNode && after.nextTree == db.nextTree && after.tally == db.tally
    && after.trees.Keys == db.trees.Keys
    && (forall t {:trigger after.trees[t]} :: t in db.trees ==>
          && after.trees[t] == db.trees[t].(cursor := after.trees[t].cursor, status := after.trees[t].status)
          && after.trees[t].cursor in db.nodes && db.nodes[after.trees[t].cursor].tree == t)
  }

  lemma {:induction false} RestatedShape(db: Db, after: Db)
    requires Shape(db) && Restated(db, after)
    ensures Shape(after)
  {
    var r := Ranking(db.nodes);
    forall n | n in after.nodes ensures Linked(after.nodes, r.0, n) {
      assert Linked(db.nodes, r.0, n);
    }
    assert Ranked(after.nodes, r.0, r.1);
    forall n | n in after.nodes ensures ParentOk(after, n) {
      assert ParentOk(db, n);
    }
  }

  lemma {:induction false} RestatedDepth(db: Db, after: Db, n: NodeId)
    requires Shape(db) && Shape(after) && Restated(db, after) && n in db.nodes
    ensures Path(after.nodes, n) == Path(db.nodes, n)
    ensures Moves(after.nodes, after.tally, n) == Moves(db.nodes, db.tally, n)
    decreases Up(db.nodes, n)
  {
    if db.nodes[n].parent.Some? {
      ParentRanks(db.nodes, n);
      RestatedDepth(db, after, db.nodes[n].parent.value);
    }
  }

  lemma {:induction false} RestatedInv(db: Db, after: Db)
    requires Inv(db) && Restated(db, after)
    ensures Inv(after)
  {
    RestatedShape(db, after);
    forall n | n in after.nodes ensures NodeOk(after, n) {
      assert NodeOk(db, n);
      RestatedNode(db, after, n);
    }
    forall t | t in after.trees ensures TreeOk(after, t) {
      assert TreeOk(db, t);
      RestatedTree(db, after, t);
    }
  }

  lemma {:induction false} RestatedNode(db: Db, after: Db, n: NodeId)
    requires Shape(db) && Shape(after) && Restated(db, after) && n in db.nodes && NodeOk(db, n)
    ensures NodeOk(after, n)
  {
    assert Kids(after.nodes, n) == Kids(db.nodes, n);
    RestatedDepth(db, after, n);
  }

  lemma {:induction false} RestatedTree(db: Db, after: Db, t: TreeId)
    requires Restated(db, after) && t in db.trees && TreeOk(db, t)
    ensures TreeOk(after, t)
  {
    assert NodesOf(after.nodes, t) == NodesOf(db.nodes, t);
  }

  // ------------------------------------------------------------------
  // A new tree
  // ------------------------------------------------------------------

  /** What creating a tree adds: a root, three anchors below it, and its record. */
  ghost predicate Planted(db: Db, after: Db, t: TreeId, r: NodeId, tree: Tree) {
    && t == db.nextTree && r == db.nextNode
    && tree.root == r && tree.outputRoot == r + 3 && tree.cursor == r && tree.total == 4
    && after.trees == db.trees[t := tree] && after.nextTree == t + 1 && after.nextNode == r + 4
    && PlantedNodes(db.nodes, after.nodes, t, r, tree.description)
    && PlantedTally(db.tally, after.tally, r) && after.tally.Keys == after.nodes.Keys
  }

  ghost predicate PlantedNodes(nodes: Nodes, after: Nodes, t: TreeId, r: NodeId, description: string) {
    && (forall n :: n in after <==> n in nodes || r <= n < r + 4)
    && (forall n :: n in nodes ==> after[n] == nodes[n])
    && (forall n :: r <= n < r + 4 ==>
          && after[n].tree == t
          && after[n].parent == (if n == r then None else Some(r))
          && after[n].depth == (if n == r then 0 else 1))
    && (Truthy(after[r].summary) || description == "")
  }

  ghost predicate PlantedTally(tally: map<NodeId, Tally>, after: map<NodeId, Tally>, r: NodeId) {
    && after.Keys == tally.Keys + {r, r + 1, r + 2, r + 3}
    && (forall n :: n in tally && n < r ==> after[n] == tally[n])
    && (forall n :: r <= n < r + 4 ==> after[n] == Tally(0, 0, if n == r then 3 else 0, 0))
  }

  lemma {:induction false} CreateTreePlants(db: Db, description: string, maxChildren: int)
    requires Shape(db)
    ensures Planted(db, CreateTree(db, description, maxChildren), db.nextTree, db.nextNode,
                    Tree(description, db.nextNode, db.nextNode + 3, db.nextNode, 4, maxChildren, TreeActive))
  {
    CreateTreeNodes(db, description, maxChildren);
    CreateTreeTally(db, description, maxChildren);
  }

  lemma {:induction false} CreateTreeNodes(db: Db, description: string, maxChildren: int)
    requires forall n :: n in db.nodes ==> n < db.nextNode
    ensures PlantedNodes(db.nodes, CreateTree(db, description, maxChildren).nodes, db.nextTree, db.nextNode,
                         description)
  {
  }

  lemma {:induction false} CreateTreeTally(db: Db, description: string, maxChildren: int)
    ensures PlantedTally(db.tally, CreateTree(db, description, maxChildren).tally, db.nextNode)
  {
  }

  lemma {:induction false} PlantedShape(db: Db, after: Db, t: TreeId, r: NodeId, tree: Tree)
    requires Shape(db) && Planted(db, after, t, r, tree)
    ensures Shape(after)
  {
    PlantedForest(db, after, t, r, tree);
    forall n | n in after.nodes ensures ParentOk(after, n) {
      if n in db.nodes {
        assert ParentOk(db, n);
      }
    }
  }

  lemma {:induction false} PlantedForest(db: Db, after: Db, t: TreeId, r: NodeId, tree: Tree)
    requires Shape(db) && Planted(db, after, t, r, tree)
    ensures Forest(after.nodes)
  {
    var old_ := Ranking(db.nodes);
    var rank := map n | n in after.nodes :: if n == r then 0 else if n > r then 1 else old_.0[n];
    forall n | n in after.nodes ensures Linked(after.nodes, rank, n) {
      if n in db.nodes {
        assert Linked(db.nodes, old_.0, n);
      }
    }
    assert Ranked(after.nodes, rank, old_.1 + 1);
  }

  lemma {:induction false} PlantedDepth(db: Db, after: Db, t: TreeId, r: NodeId, tree: Tree, n: NodeId)
    requires Shape(db) && Planted(db, after, t, r, tree) && Shape(after) && n in db.nodes
    ensures Path(after.nodes, n) == Path(db.nodes, n)
    ensures Moves(after.nodes, after.tally, n) == Moves(db.nodes, db.tally, n)
    decreases Up(db.nodes, n)
  {
    if db.nodes[n].parent.Some? {
      ParentRanks(db.nodes, n);
      PlantedDepth(db, after, t, r, tree, db.nodes[n].parent.value);
    }
  }

  lemma {:induction false} PlantedKids(db: Db, after: Db, t: TreeId, r: NodeId, tree: Tree, n: NodeId)
    requires Shape(db) && Planted(db, after, t, r, tree) && n in after.nodes
    ensures n in db.nodes ==> Kids(after.nodes, n) == Kids(db.nodes, n)
    ensures n !in db.nodes ==> forall k :: k in Kids(after.nodes, n) <==> n == r < k < r + 4
  {
    forall k | k in db.nodes && db.nodes[k].parent.Some? ensures db.nodes[k].parent.value in db.nodes {
      ParentRanks(db.nodes, k);
    }
  }

  lemma {:induction false} RangeSize(S: set<NodeId>, from: nat, size: nat)
    requires forall x :: x in S <==> from <= x < from + size
    ensures |S| == size
  {
    if size > 0 {
      RangeSize(S - {from + size - 1}, from, size - 1);
    } else {
      assert S == {};
    }
  }

  lemma {:induction false} PlantedNode(db: Db, after: Db, t: TreeId, r: NodeId, tree: Tree, n: NodeId)
    requires Shape(db) && Planted(db, after, t, r, tree) && Shape(after) && n in after.nodes
    requires n in db.nodes ==> NodeOk(db, n)
    ensures NodeOk(after, n)
  {
    PlantedKids(db, after, t, r, tree, n);
    if n in db.nodes {
      PlantedDepth(db, after, t, r, tree, n);
    } else {
      RangeSize(Kids(after.nodes, n), r + 1, if n == r then 3 else 0);
      assert Path(after.nodes, r) == [r];
    }
  }

  lemma {:induction false} PlantedTree(db: Db, after: Db, t: TreeId, r: NodeId, tree: Tree, u: TreeId)
    requires Shape(db) && Planted(db, after, t, r, tree) && u in after.trees
    requires u in db.trees ==> TreeOk(db, u)
    ensures TreeOk(after, u)
  {
    if u in db.trees {
      assert NodesOf(after.nodes, u) == NodesOf(db.nodes, u);
    } else {
      RangeSize(NodesOf(after.nodes, u), r, 4);
    }
  }

  lemma {:induction false} PlantedInv(db: Db, after: Db, t: TreeId, r: NodeId, tree: Tree)
    requires Inv(db) && Planted(db, after, t, r, tree)
    ensures Inv(after)
  {
    PlantedShape(db, after, t, r, tree);
    forall u | u in after.trees ensures TreeOk(after, u) {
      assert u in db.trees ==> TreeOk(db, u);
      PlantedTree(db, after, t, r, tree, u);
    }
    forall n | n in after.nodes ensures NodeOk(after, n) {
      assert n in db.nodes ==> NodeOk(db, n);
      PlantedNode(db, after, t, r, tree, n);
    }
  }

  lemma {:induction false} CreateTreeInv(db: Db, description: string, maxChildren: int)
    requires Inv(db)
    ensures Inv(CreateTree(db, description, maxChildren))
  {
    CreateTreePlants(db, description, maxChildren);
    PlantedInv(db, CreateTree(db, description, maxChildren), db.nextTree, db.nextNode,
               Tree(description, db.nextNode, db.nextNode + 3, db.nextNode, 4, maxChildren, TreeActive));
  }
}
