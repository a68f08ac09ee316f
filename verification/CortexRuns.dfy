/** Every operation keeps the invariant and every old section, breadcrumb ancestry and node
    text; so does every run of any number of services. */
module CortexRuns {
  import opened Basics
  import opened CortexModel
  import opened CortexMoves
  import opened CortexRegroup
  import opened CortexState
  import opened CortexInvariant
  import opened CortexGrowth

  // ------------------------------------------------------------------
  // What never changes about old nodes
  // ------------------------------------------------------------------

  /** The ids in s that were handed out before `bound`. */
  function Older(s: seq<NodeId>, bound: NodeId): seq<NodeId> {
    if s == [] then [] else (if s[0] < bound then [s[0]] else []) + Older(s[1..], bound)
  }

  lemma {:induction false} OlderAppend(a: seq<NodeId>, b: seq<NodeId>, bound: NodeId)
    ensures Older(a + b, bound) == Older(a, bound) + Older(b, bound)
  {
    if a == [] {
      assert a + b == b;
    } else {
      assert (a + b)[1..] == a[1..] + b;
      OlderAppend(a[1..], b, bound);
    }
  }

  lemma {:induction false} OlderAll(s: seq<NodeId>, bound: NodeId)
    requires forall x :: x in s ==> x < bound
    ensures Older(s, bound) == s
  {
    if s != [] {
      assert s[0] in s && forall x :: x in s[1..] ==> x in s;
      OlderAll(s[1..], bound);
    }
  }

  lemma {:induction false} OlderNone(s: seq<NodeId>, bound: NodeId)
    requires forall x :: x in s ==> x >= bound
    ensures Older(s, bound) == []
  {
    if s != [] {
      assert s[0] in s && forall x :: x in s[1..] ==> x in s;
      OlderNone(s[1..], bound);
    }
  }

  lemma {:induction false} OlderTwice(s: seq<NodeId>, first: NodeId, second: NodeId)
    requires first <= second
    ensures Older(Older(s, second), first) == Older(s, first)
  {
    if s != [] {
      OlderTwice(s[1..], first, second);
      var head := if s[0] < second then [s[0]] else [];
      OlderAppend(head, Older(s[1..], second), first);
      if s[0] < second {
        assert [s[0]][1..] == [];
      }
    }
  }

  /** An old node keeps its text, its depth field, and exactly its old ancestors; what is
      collected from it keeps every old section, in the old order. */
  ghost predicate Kept(db: Db, after: Db, n: NodeId)
    requires Forest(db.nodes) && Forest(after.nodes) && n in db.nodes
  {
    && n in after.nodes
    && after.nodes[n] == db.nodes[n].(parent := after.nodes[n].parent, order := after.nodes[n].order,
                                      status := after.nodes[n].status)
    && (forall a :: a in db.nodes ==> (Within(after.nodes, n, a) <==> Within(db.nodes, n, a)))
    && Older(Collect(after.nodes, n), db.nextNode) == Collect(db.nodes, n)
  }

  ghost predicate Evolved(db: Db, after: Db) {
    && Forest(db.nodes) && Forest(after.nodes)
    && db.nextNode <= after.nextNode
    && (forall n {:trigger Kept(db, after, n)} :: n in db.nodes ==> Kept(db, after, n))
  }

  lemma {:induction false} EvolvedTransitive(a: Db, b: Db, c: Db)
    requires Evolved(a, b) && Evolved(b, c)
    ensures Evolved(a, c)
  {
    forall n | n in a.nodes ensures Kept(a, c, n) {
      assert Kept(a, b, n) && Kept(b, c, n);
      forall x | x in a.nodes ensures Within(c.nodes, n, x) <==> Within(a.nodes, n, x) {
        assert Kept(a, b, x);
      }
      OlderTwice(Collect(c.nodes, n), a.nextNode, b.nextNode);
    }
  }

  lemma {:induction false} CollectedAreOld(db: Db, n: NodeId)
    requires Shape(db) && n in db.nodes
    ensures Older(Collect(db.nodes, n), db.nextNode) == Collect(db.nodes, n)
  {
    forall x | x in Collect(db.nodes, n) ensures x < db.nextNode {
      CollectFinds(db.nodes, n, x);
    }
    OlderAll(Collect(db.nodes, n), db.nextNode);
  }

  lemma {:induction false} EvolvedSelf(db: Db, after: Db)
    requires Shape(db) && after.nodes == db.nodes && after.nextNode == db.nextNode
    ensures Evolved(db, after)
  {
    forall n | n in db.nodes ensures Kept(db, after, n) {
      CollectedAreOld(db, n);
    }
  }

  lemma {:induction false} ReclusteredEvolves(db: Db, after: Db, p: NodeId, half: nat)
    requires Reclustered(db, after, p, half) && Shape(after)
    ensures Evolved(db, after)
    ensures forall n :: n in db.nodes ==> n in after.nodes && Collect(after.nodes, n) == Collect(db.nodes, n)
  {
    var group :| GroupFits(db, after, p, half, group);
    forall n | n in db.nodes
      ensures Kept(db, after, n)
      ensures Collect(after.nodes, n) == Collect(db.nodes, n)
    {
      RegroupFields(db.nodes, after.nodes, p, half, db.nextNode, group, n);
      RegroupCollect(db.nodes, after.nodes, p, half, db.nextNode, group, n);
      CollectedAreOld(db, n);
      forall a | a in db.nodes ensures Within(after.nodes, n, a) <==> Within(db.nodes, n, a) {
        RegroupWithin(db.nodes, after.nodes, p, half, db.nextNode, group, n, a);
      }
    }
  }

  lemma {:induction false} AddLeafEvolves(db: Db, t: TreeId, leaf: Node, p: NodeId)
    requires Shape(db) && leaf.parent == Some(p) && leaf.tree == t && Fitting(db, leaf)
    requires Shape(AddLeaf(db, t, leaf))
    ensures Evolved(db, AddLeaf(db, t, leaf))
  {
    var after := AddLeaf(db, t, leaf);
    forall n | n in db.nodes ensures Kept(db, after, n) {
      InsertPath(db.nodes, db.nextNode, leaf, n);
      InsertKeepsOlder(db, leaf, p, n);
    }
  }

  lemma {:induction false} InsertKeepsOlder(db: Db, leaf: Node, p: NodeId, n: NodeId)
    requires Shape(db) && leaf.parent == Some(p) && p in db.nodes && n in db.nodes
    requires Forest(db.nodes[db.nextNode := leaf])
    ensures Older(Collect(db.nodes[db.nextNode := leaf], n), db.nextNode) == Collect(db.nodes, n)
  {
    var c, after := db.nextNode, db.nodes[db.nextNode := leaf];
    CollectedAreOld(db, n);
    if Within(db.nodes, p, n) {
      InsertKeepsEnclosing(db.nodes, c, leaf, p, n);
    } else {
      InsertElsewhere(db.nodes, c, leaf, n);
    }
  }

  lemma {:induction false} InsertKeepsEnclosing(nodes: Nodes, c: NodeId, leaf: Node, p: NodeId, n: NodeId)
    requires Fresh(nodes, c, leaf) && leaf.parent == Some(p) && Forest(nodes[c := leaf])
    requires n in nodes && Within(nodes, p, n)
    ensures Older(Collect(nodes[c := leaf], n), c) == Older(Collect(nodes, n), c)
  {
    var pre, post := InsertSplices(nodes, c, leaf, p, n);
    var front, own, back := Front(nodes, p, leaf.order), OwnSection(c, leaf), Back(nodes, p, leaf.order);
    InsertAtParent(nodes, c, leaf, p);
    FrontBack(nodes, p, leaf.order);
    OlderSplice(pre, front, own, back, post, c);
  }

  lemma {:induction false} OlderSplice(pre: seq<NodeId>, front: seq<NodeId>, own: seq<NodeId>, back: seq<NodeId>,
                                       post: seq<NodeId>, bound: NodeId)
    requires forall x :: x in own ==> x >= bound
    ensures Older(pre + (front + own + back) + post, bound) == Older(pre + (front + back) + post, bound)
  {
    OlderNone(own, bound);
    OlderAppend(pre + (front + own + back), post, bound);
    OlderAppend(pre, front + own + back, bound);
    OlderAppend(front + own, back, bound);
    OlderAppend(front, own, bound);
    OlderAppend(pre + (front + back), post, bound);
    OlderAppend(pre, front + back, bound);
    OlderAppend(front, back, bound);
    assert Older(front, bound) + [] == Older(front, bound);
  }

  lemma {:induction false} RestatedEvolves(db: Db, after: Db)
    requires Shape(db) && Shape(after) && Restated(db, after) && Relabelled(db.nodes, after.nodes)
    ensures Evolved(db, after)
  {
    forall n | n in db.nodes ensures Kept(db, after, n) {
      RelabelledPath(db.nodes, after.nodes, n);
      RelabelledCollect(db.nodes, after.nodes, n);
      CollectedAreOld(db, n);
    }
  }

  lemma {:induction false} PlantedEvolves(db: Db, after: Db, t: TreeId, r: NodeId, tree: Tree)
    requires Shape(db) && Planted(db, after, t, r, tree) && Shape(after)
    ensures Evolved(db, after)
  {
    forall n | n in db.nodes ensures Kept(db, after, n) {
      PlantedDepth(db, after, t, r, tree, n);
      PlantedCollect(db, after, t, r, tree, n);
      CollectedAreOld(db, n);
    }
  }

  lemma {:induction false} PlantedChildren(db: Db, after: Db, t: TreeId, r: NodeId, tree: Tree, n: NodeId)
    requires Shape(db) && Planted(db, after, t, r, tree) && n in db.nodes
    ensures Children(after.nodes, n) == Children(db.nodes, n)
  {
    PlantedKids(db, after, t, r, tree, n);
    ChildrenListed(db.nodes, n);
    assert Listing(after.nodes, Kids(after.nodes, n), Children(db.nodes, n));
    ChildrenAre(after.nodes, n, Children(db.nodes, n));
  }

  lemma {:induction false} PlantedCollect(db: Db, after: Db, t: TreeId, r: NodeId, tree: Tree, n: NodeId)
    requires Shape(db) && Planted(db, after, t, r, tree) && Shape(after) && n in db.nodes
    ensures Collect(after.nodes, n) == Collect(db.nodes, n)
    decreases Down(db.nodes, n)
  {
    var kids := Children(db.nodes, n);
    PlantedChildren(db, after, t, r, tree, n);
    forall i | 0 <= i < |kids| ensures Collect(after.nodes, kids[i]) == Collect(db.nodes, kids[i]) {
      ParentRanks(db.nodes, kids[i]);
      PlantedCollect(db, after, t, r, tree, kids[i]);
    }
    assert Parts(after.nodes, n, kids) == Parts(db.nodes, n, kids);
  }

  // ------------------------------------------------------------------
  // Operations
  // ------------------------------------------------------------------

  /** Making room keeps the invariant, frees a slot and preserves every collection. */
  lemma {:induction false} MakeRoomKeeps(db: Db, p: NodeId)
    requires Inv(db) && p in db.nodes && Truthy(db.nodes[p].summary)
    ensures var roomy := MakeRoom(db, p);
            && Inv(roomy) && Evolved(db, roomy)
            && p in roomy.nodes && |Kids(roomy.nodes, p)| + 1 <= Cap(Limit(roomy, p))
            && roomy.trees.Keys == db.trees.Keys
    ensures forall n :: n in db.nodes ==>
              n in MakeRoom(db, p).nodes && Collect(MakeRoom(db, p).nodes, n) == Collect(db.nodes, n)
  {
    var k := |Children(db.nodes, p)|;
    ReclusterIs(db, p);
    if k < Limit(db, p) || k / 2 == 0 {
      ChildCount(db.nodes, p);
      assert NodeOk(db, p);
      EvolvedSelf(db, db);
    } else {
      ReclusteredKeeps(db, Recluster(db, p), p, k / 2);
    }
  }

  lemma {:induction false} ReclusteredKeeps(db: Db, after: Db, p: NodeId, half: nat)
    requires Inv(db) && Reclustered(db, after, p, half)
    requires half == |Children(db.nodes, p)| / 2 && |Children(db.nodes, p)| >= Limit(db, p)
    ensures Inv(after) && Evolved(db, after)
    ensures p in after.nodes && |Kids(after.nodes, p)| + 1 <= Cap(Limit(after, p))
    ensures after.trees.Keys == db.trees.Keys
    ensures forall n :: n in db.nodes ==> n in after.nodes && Collect(after.nodes, n) == Collect(db.nodes, n)
  {
    ReclusteredShape(db, after, p, half);
    ReclusteredTrees(db, after, p, half);
    ReclusteredEvolves(db, after, p, half);
    ReclusteredNodes(db, after, p, half);
    ReclusteredRecords(db, after, p, half);
  }

  lemma {:induction false} ReclusteredRecords(db: Db, after: Db, p: NodeId, half: nat)
    requires Reclustered(db, after, p, half)
    ensures p in after.nodes && after.trees.Keys == db.trees.Keys
  {
  }

  lemma {:induction false} ReclusteredNodes(db: Db, after: Db, p: NodeId, half: nat)
    requires Inv(db) && Shape(after) && Reclustered(db, after, p, half)
    requires half == |Children(db.nodes, p)| / 2 && |Children(db.nodes, p)| >= Limit(db, p)
    ensures forall n {:trigger NodeOk(after, n)} :: n in after.nodes ==> NodeOk(after, n)
    ensures p in after.nodes && |Kids(after.nodes, p)| + 1 <= Cap(Limit(after, p))
  {
    forall m | m in db.nodes ensures DepthExact(db, m) && Bounded(db, m) && Accounted(db, m) {
      assert NodeOk(db, m);
    }
    ChildCount(db.nodes, p);
    ReclusteredRecords(db, after, p, half);
    ReclusteredBounded(db, after, p, half, p);
    forall n | n in after.nodes ensures NodeOk(after, n) {
      ReclusteredDepth(db, after, p, half, n);
      ReclusteredBounded(db, after, p, half, n);
      ReclusteredAccounted(db, after, p, half, n);
    }
  }

  lemma {:induction false} WriteUnderKeeps(db: Db, req: Request)
    requires Inv(db) && req.parent in db.nodes
    ensures Inv(WriteUnder(db, req).0) && Evolved(db, WriteUnder(db, req).0)
    ensures WriteUnder(db, req).0.trees.Keys == db.trees.Keys
  {
    if !Truthy(db.nodes[req.parent].summary) {
      EvolvedSelf(db, db);
    } else {
      MakeRoomKeeps(db, req.parent);
      var roomy := MakeRoom(db, req.parent);
      if req.kind.Some? && req.status.Some? {
        WriteIntoKeeps(db, roomy, req, OrderFor(db.nodes, req));
      }
    }
  }

  /** Adding the new child once there is room for it. */
  lemma {:induction false} WriteIntoKeeps(db: Db, roomy: Db, req: Request, order: int)
    requires Inv(db) && Inv(roomy) && Evolved(db, roomy)
    requires req.parent in db.nodes && Truthy(db.nodes[req.parent].summary) && req.kind.Some? && req.status.Some?
    requires req.parent in roomy.nodes && |Kids(roomy.nodes, req.parent)| + 1 <= Cap(Limit(roomy, req.parent))
    ensures var leaf := Leaf(db.nodes[req.parent], req, order);
            && Fitting(roomy, leaf)
            && Inv(AddLeaf(roomy, leaf.tree, leaf))
            && Evolved(db, AddLeaf(roomy, leaf.tree, leaf))
  {
    var p := req.parent;
    var leaf := Leaf(db.nodes[p], req, order);
    assert Kept(db, roomy, p);
    assert Fitting(roomy, leaf);
    AddLeafInv(roomy, leaf.tree, leaf, p);
    AddLeafEvolves(roomy, leaf.tree, leaf, p);
    EvolvedTransitive(db, roomy, AddLeaf(roomy, leaf.tree, leaf));
  }

  lemma {:induction false} WriteKeeps(db: Db, svc: Service, req: Request)
    requires Inv(db) && Sound(db)
    ensures Inv(Write(db, svc, req).db) && Evolved(db, Write(db, svc, req).db)
    ensures Write(db, svc, req).db.trees.Keys == db.trees.Keys
  {
    if GetNode(db.nodes, svc, req.parent).1.Ok? {
      WriteUnderKeeps(db, req);
    } else {
      EvolvedSelf(db, db);
    }
  }

  /** Moving a cursor to a node of its tree, or setting a tree status. */
  lemma {:induction false} RecordKeeps(db: Db, after: Db)
    requires Inv(db) && after.nodes == db.nodes && Restated(db, after)
    ensures Inv(after) && Evolved(db, after)
  {
    RestatedInv(db, after);
    EvolvedSelf(db, after);
  }

  lemma {:induction false} CursorRestates(db: Db, n: NodeId)
    requires Inv(db) && n in db.nodes
    ensures Restated(db, SetCursor(db, db.nodes[n].tree, n))
  {
    forall t | t in db.trees ensures db.trees[t].cursor in db.nodes && db.nodes[db.trees[t].cursor].tree == t {
      assert TreeOk(db, t);
    }
  }

  lemma {:induction false} StatusRestates(db: Db, t: TreeId, status: TreeStatus)
    requires Inv(db) && t in db.trees
    ensures Restated(db, SetTreeStatus(db, t, status))
  {
    forall t | t in db.trees ensures db.trees[t].cursor in db.nodes && db.nodes[db.trees[t].cursor].tree == t {
      assert TreeOk(db, t);
    }
  }

  lemma {:induction false} TouchKeeps(db: Db, n: NodeId)
    requires Inv(db) && n in db.nodes
    ensures var touched := db.(nodes := db.nodes[n := Touched(db.nodes[n])]);
            Inv(touched) && Evolved(db, touched)
  {
    var touched := db.(nodes := db.nodes[n := Touched(db.nodes[n])]);
    TouchRestates(db, n);
    RestatedInv(db, touched);
    RestatedEvolves(db, touched);
  }

  lemma {:induction false} TouchRestates(db: Db, n: NodeId)
    requires Inv(db) && n in db.nodes
    ensures var touched := db.(nodes := db.nodes[n := Touched(db.nodes[n])]);
            Restated(db, touched) && Relabelled(db.nodes, touched.nodes)
  {
    forall t | t in db.trees ensures db.trees[t].cursor in db.nodes && db.nodes[db.trees[t].cursor].tree == t {
      assert TreeOk(db, t);
    }
  }

  lemma {:induction false} CursorKeeps(db: Db, n: NodeId)
    requires Inv(db) && n in db.nodes
    ensures var after := SetCursor(db, db.nodes[n].tree, n); Inv(after) && Evolved(db, after)
  {
    CursorRestates(db, n);
    RecordKeeps(db, SetCursor(db, db.nodes[n].tree, n));
  }

  lemma {:induction false} StatusKeeps(db: Db, t: TreeId, status: TreeStatus)
    requires Inv(db) && t in db.trees
    ensures var after := SetTreeStatus(db, t, status); Inv(after) && Evolved(db, after)
  {
    StatusRestates(db, t, status);
    RecordKeeps(db, SetTreeStatus(db, t, status));
  }

  lemma {:induction false} ReadKeeps(db: Db, svc: Service, n: NodeId)
    requires Inv(db) && Sound(db)
    ensures Inv(Read(db, svc, n).db) && Evolved(db, Read(db, svc, n).db)
  {
    EvolvedSelf(db, db);
    if GetNode(db.nodes, svc, n).1.Ok? {
      var touched := db.(nodes := db.nodes[n := Touched(db.nodes[n])]);
      TouchKeeps(db, n);
      CursorKeeps(touched, n);
      EvolvedTransitive(db, touched, SetCursor(touched, db.nodes[n].tree, n));
    }
  }

  lemma {:induction false} NavigateKeeps(db: Db, svc: Service, n: NodeId)
    requires Inv(db) && Sound(db)
    ensures Inv(Navigate(db, svc, n).db) && Evolved(db, Navigate(db, svc, n).db)
    ensures Navigate(db, svc, n).db.trees.Keys == db.trees.Keys
  {
    EvolvedSelf(db, db);
    if n in db.nodes {
      CursorKeeps(db, n);
    }
  }

  lemma {:induction false} RecurseKeeps(db: Db, svc: Service, n: NodeId, payload: string, task: string)
    requires Inv(db) && Sound(db)
    ensures var after := Recurse(db, svc, n, payload, task).db; Inv(after) && Evolved(db, after)
  {
    EvolvedSelf(db, db);
    WriteKeeps(db, GetNode(db.nodes, svc, n).0,
               Request(n, Some(Task), Some(Pending), Some(payload), Some(Prefix(task, 500)), None));
  }

  lemma {:induction false} CheckpointKeeps(db: Db, svc: Service, t: TreeId, payload: string, progress: string)
    requires Inv(db) && Sound(db)
    ensures var after := WriteCheckpoint(db, svc, t, payload, progress).db; Inv(after) && Evolved(db, after)
  {
    EvolvedSelf(db, db);
    if t in db.trees {
      WriteKeeps(db, svc, Request(db.trees[t].cursor, Some(Checkpoint), Some(Complete), Some(payload),
                                  Some(Prefix(progress, 500)), None));
    }
  }

  lemma {:induction false} SuspendKeeps(db: Db, svc: Service, t: TreeId, payload: string)
    requires Inv(db) && Sound(db)
    ensures var after := Suspend(db, svc, t, payload).db; Inv(after) && Evolved(db, after)
  {
    CheckpointKeeps(db, svc, t, payload, SUSPENDED);
    var mid := WriteCheckpoint(db, svc, t, payload, SUSPENDED).db;
    if t in mid.trees {
      StatusKeeps(mid, t, TreeSuspended);
      EvolvedTransitive(db, mid, SetTreeStatus(mid, t, TreeSuspended));
    }
  }

  lemma {:induction false} ResumeKeeps(db: Db, svc: Service, t: TreeId)
    requires Inv(db) && Sound(db)
    ensures Inv(Resume(db, svc, t).db) && Evolved(db, Resume(db, svc, t).db)
  {
    EvolvedSelf(db, db);
    if t in db.trees {
      NavigateKeeps(db, svc, db.trees[t].cursor);
      var moved := Navigate(db, svc, db.trees[t].cursor).db;
      StatusKeeps(moved, t, TreeActive);
      EvolvedTransitive(db, moved, SetTreeStatus(moved, t, TreeActive));
    }
  }

  lemma {:induction false} ApplyKeeps(db: Db, svc: Service, a: Action)
    requires Inv(db) && Sound(db) && !a.Open? && !a.DoCreate?
    ensures Inv(Apply(db, svc, a).0) && Evolved(db, Apply(db, svc, a).0)
  {
    match a
    case DoWrite(_, req) => WriteKeeps(db, svc, req);
    case DoRead(_, n) => ReadKeeps(db, svc, n);
    case DoNavigate(_, n) => NavigateKeeps(db, svc, n);
    case DoRecurse(_, n, payload, task) => RecurseKeeps(db, svc, n, payload, task);
    case DoCheckpoint(_, t, payload, progress) => CheckpointKeeps(db, svc, t, payload, progress);
    case DoSuspend(_, t, payload) => SuspendKeeps(db, svc, t, payload);
    case DoResume(_, t) => ResumeKeeps(db, svc, t);
    case DoAssemble(_, _) => EvolvedSelf(db, db);
  }

  lemma {:induction false} CreateTreeKeeps(db: Db, description: string, maxChildren: int)
    requires Inv(db)
    ensures var after := CreateTree(db, description, maxChildren); Inv(after) && Evolved(db, after)
  {
    CreateTreeInv(db, description, maxChildren);
    CreateTreePlants(db, description, maxChildren);
    PlantedEvolves(db, CreateTree(db, description, maxChildren), db.nextTree, db.nextNode,
                   Tree(description, db.nextNode, db.nextNode + 3, db.nextNode, 4, maxChildren, TreeActive));
  }

  lemma {:induction false} ActKeeps(w: World, a: Action)
    requires Inv(w.db) && Sound(w.db)
    ensures Inv(Act(w, a).db) && Evolved(w.db, Act(w, a).db)
  {
    EvolvedSelf(w.db, w.db);
    if a.DoCreate? {
      CreateTreeKeeps(w.db, a.description, a.maxChildren);
    } else if !a.Open? && a.svc < |w.services| {
      ApplyKeeps(w.db, w.services[a.svc], a);
    }
  }

  // ------------------------------------------------------------------
  // Runs
  // ------------------------------------------------------------------

  ghost function Run(w: World, actions: seq<Action>): World
    requires Inv(w.db)
    decreases |actions|
  {
    if actions == [] then w else
      InvSound(w.db);
      ActKeeps(w, actions[0]);
      Run(Act(w, actions[0]), actions[1..])
  }

  /** Whatever the actions, the invariant holds at the end, and every node there was at the
      start keeps its text, its ancestry among old nodes and every collected section. */
  lemma {:induction false} RunKeeps(w: World, actions: seq<Action>)
    requires Inv(w.db)
    ensures Inv(Run(w, actions).db) && Evolved(w.db, Run(w, actions).db)
    decreases |actions|
  {
    if actions == [] {
      EvolvedSelf(w.db, w.db);
    } else {
      InvSound(w.db);
      ActKeeps(w, actions[0]);
      RunKeeps(Act(w, actions[0]), actions[1..]);
      EvolvedTransitive(w.db, Act(w, actions[0]).db, Run(w, actions).db);
    }
  }

  lemma {:induction false} EmptyInv()
    ensures Inv(EMPTY.db)
  {
    assert Ranked(map[], map[], 0);
  }
}
