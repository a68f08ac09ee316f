/** Where a written section lands in the assembled output. */
module CortexWrites {
  import opened Basics
  import opened CortexModel
  import opened CortexMoves
  import opened CortexRegroup
  import opened CortexState
  import opened CortexInvariant
  import opened CortexRuns

  /** The order query returns the largest order below p. */
  lemma {:induction false} MaxOrderIsMaximum(nodes: Nodes, p: NodeId)
    ensures forall k :: k in Kids(nodes, p) ==> nodes[k].order <= MaxOrder(nodes, p)
    ensures Kids(nodes, p) != {} ==> exists k :: k in Kids(nodes, p) && nodes[k].order == MaxOrder(nodes, p)
    ensures Kids(nodes, p) == {} ==> MaxOrder(nodes, p) == -1
  {
    var kids := Children(nodes, p);
    ChildrenListed(nodes, p);
    forall k | k in Kids(nodes, p) ensures kids != [] && nodes[k].order <= MaxOrder(nodes, p) {
      assert k in kids;
      var i :| 0 <= i < |kids| && kids[i] == k;
      assert i == |kids| - 1 || Before(nodes, kids[i], kids[|kids| - 1]);
    }
    if kids != [] {
      assert kids[|kids| - 1] in kids;
    }
  }

  /** Reclustering preserves meaning: whatever node it is asked for, with or without children
      enough to regroup, every old node keeps its text and its ancestors, and the walk from any
      of them collects the same sections in the same order. */
  lemma {:induction false} ReclusterKeepsMeaning(db: Db, p: NodeId, n: NodeId)
    requires Forest(db.nodes) && (forall x :: x in db.nodes ==> x < db.nextNode)
    requires p in db.nodes && db.nodes[p].tree in db.trees && n in db.nodes
    ensures var after := Recluster(db, p).nodes;
            && Forest(after) && n in after
            && Collect(after, n) == Collect(db.nodes, n)
            && after[n] == db.nodes[n].(parent := after[n].parent, order := after[n].order)
            && (forall a :: a in db.nodes ==> (Within(after, n, a) <==> Within(db.nodes, n, a)))
  {
    var kids, after, g := Children(db.nodes, p), Recluster(db, p).nodes, db.nextNode;
    var half := |kids| / 2;
    if |kids| >= db.trees[db.nodes[p].tree].maxChildren && half != 0 {
      var group := GroupNode(db, p, kids);
      GroupedIsRegrouped(db.nodes, p, half, g, group);
      RegroupForest(db.nodes, after, p, half, g, group);
      RegroupFields(db.nodes, after, p, half, g, group, n);
      RegroupCollect(db.nodes, after, p, half, g, group, n);
      forall a | a in db.nodes ensures Within(after, n, a) <==> Within(db.nodes, n, a) {
        RegroupWithin(db.nodes, after, p, half, g, group, n, a);
      }
    }
  }

  /** A reclustering really happens in this write. */
  ghost predicate Reclusters(db: Db, p: NodeId)
    requires p in db.nodes && db.nodes[p].tree in db.trees
  {
    |Children(db.nodes, p)| >= Limit(db, p) && |Children(db.nodes, p)| >= 2
  }

  /** The order was computed before the renumbering: the newcomer is last exactly when no
      reclustering happens or its stale order reaches that of the last renumbered child. */
  ghost predicate LandsLast(db: Db, req: Request)
    requires req.parent in db.nodes && db.nodes[req.parent].tree in db.trees
  {
    var n := |Children(db.nodes, req.parent)|;
    if Reclusters(db, req.parent) then OrderFor(db.nodes, req) >= n - n / 2
    else n == 0 || OrderFor(db.nodes, req) >= MaxOrder(db.nodes, req.parent)
  }

  /** A successful write in the terms of its two surgeries. */
  lemma {:induction false} WriteSplits(db: Db, req: Request)
    requires Inv(db) && req.parent in db.nodes && WriteUnder(db, req).1.Ok?
    ensures var p, roomy, c := req.parent, MakeRoom(db, req.parent), WriteUnder(db, req).1.value;
            var leaf := Leaf(db.nodes[p], req, OrderFor(db.nodes, req));
            && Inv(roomy) && p in roomy.nodes && c == roomy.nextNode && c !in db.nodes
            && Fresh(roomy.nodes, c, leaf) && leaf.parent == Some(p)
            && WriteUnder(db, req).0.nodes == roomy.nodes[c := leaf] && Forest(roomy.nodes[c := leaf])
            && (forall n :: n in db.nodes ==> n in roomy.nodes && Collect(roomy.nodes, n) == Collect(db.nodes, n))
            && (forall n :: n in db.nodes ==> (Within(roomy.nodes, p, n) <==> Within(db.nodes, p, n)))
  {
    var p := req.parent;
    MakeRoomKeeps(db, p);
    var roomy := MakeRoom(db, p);
    var leaf := Leaf(db.nodes[p], req, OrderFor(db.nodes, req));
    assert Kept(db, roomy, p);
    assert roomy.nextNode !in db.nodes;
    InsertForest(roomy.nodes, roomy.nextNode, leaf);
  }

  lemma {:induction false} RegroupedOrders(nodes: Nodes, after: Nodes, p: NodeId, half: nat, g: NodeId, group: Node)
    requires Regrouped(nodes, after, p, half, g, group)
    ensures var kids := [g] + Children(nodes, p)[half..];
            forall i :: 0 <= i < |kids| ==> kids[i] in after && after[kids[i]].order == i
  {
    var old_ := Children(nodes, p);
    var kids := [g] + old_[half..];
    forall i | 0 < i < |kids| ensures kids[i] in after && after[kids[i]].order == i {
      assert kids[i] == old_[half + i - 1];
    }
  }

  /** The children of p right before the newcomer joins them. */
  lemma {:induction false} RoomyChildren(db: Db, p: NodeId)
    requires Inv(db) && p in db.nodes && Truthy(db.nodes[p].summary)
    ensures var kids, roomy := Children(db.nodes, p), MakeRoom(db, p).nodes;
            if Reclusters(db, p) then
              && Children(roomy, p) == [db.nextNode] + kids[|kids| / 2..]
              && Consecutive(roomy, Children(roomy, p))
            else Children(roomy, p) == kids && roomy == db.nodes
  {
    ReclusterIs(db, p);
    if Reclusters(db, p) {
      var after, half := Recluster(db, p), |Children(db.nodes, p)| / 2;
      var group :| GroupFits(db, after, p, half, group);
      RegroupChildren(db.nodes, after.nodes, p, half, db.nextNode, group, p);
      RegroupedOrders(db.nodes, after.nodes, p, half, db.nextNode, group);
    }
  }

  /** Freshly numbered siblings: 0, 1, 2, ... */
  ghost predicate Consecutive(nodes: Nodes, kids: seq<NodeId>) {
    forall i :: 0 <= i < |kids| ==> kids[i] in nodes && nodes[kids[i]].order == i
  }

  lemma {:induction false} SlotAmongConsecutive(nodes: Nodes, kids: seq<NodeId>, order: int)
    requires Consecutive(nodes, kids)
    ensures Slot(nodes, kids, order) == if order < 0 then 0 else if order < |kids| then order + 1 else |kids|
  {
    SlotSplits(nodes, kids, order);
    var k := Slot(nodes, kids, order);
    assert k > 0 ==> nodes[kids[k - 1]].order == k - 1;
    assert k < |kids| ==> nodes[kids[k]].order == k;
  }

  /** The newcomer's place among the children of its parent. */
  lemma {:induction false} WritePosition(db: Db, req: Request)
    requires Inv(db) && req.parent in db.nodes && WriteUnder(db, req).1.Ok?
    ensures var kids := Children(MakeRoom(db, req.parent).nodes, req.parent);
            var k := Slot(MakeRoom(db, req.parent).nodes, kids, OrderFor(db.nodes, req));
            && Children(WriteUnder(db, req).0.nodes, req.parent)
                 == kids[..k] + [WriteUnder(db, req).1.value] + kids[k..]
            && (k == |kids| <==> LandsLast(db, req))
            && (Reclusters(db, req.parent) ==>
                  var stale, stay := OrderFor(db.nodes, req), |kids| - 1;
                  k == if stale < 0 then 0 else if stale < stay then stale + 1 else stay + 1)
  {
    var p := req.parent;
    WriteSplits(db, req);
    var roomy, order := MakeRoom(db, p), OrderFor(db.nodes, req);
    InsertChildren(roomy.nodes, roomy.nextNode, Leaf(db.nodes[p], req, order), p);
    SlotOfWrite(db, req);
  }

  lemma {:induction false} SlotOfWrite(db: Db, req: Request)
    requires Inv(db) && req.parent in db.nodes && Truthy(db.nodes[req.parent].summary)
    ensures var kids := Children(MakeRoom(db, req.parent).nodes, req.parent);
            var k := Slot(MakeRoom(db, req.parent).nodes, kids, OrderFor(db.nodes, req));
            && (k == |kids| <==> LandsLast(db, req))
            && (Reclusters(db, req.parent) ==>
                  var stale, stay := OrderFor(db.nodes, req), |kids| - 1;
                  k == if stale < 0 then 0 else if stale < stay then stale + 1 else stay + 1)
  {
    var p := req.parent;
    RoomyChildren(db, p);
    var roomy, order := MakeRoom(db, p).nodes, OrderFor(db.nodes, req);
    if Reclusters(db, p) {
      SlotAmongConsecutive(roomy, Children(roomy, p), order);
    } else {
      SlotSplits(roomy, Children(roomy, p), order);
    }
  }

  /** A write with an automatic order appends exactly when no reclustering happens or the
      stale order reaches that of the last renumbered child. */
  lemma {:induction false} WriteAppendsIff(db: Db, req: Request)
    requires Inv(db) && req.parent in db.nodes && WriteUnder(db, req).1.Ok? && req.order == None
    ensures var after, c := WriteUnder(db, req).0, WriteUnder(db, req).1.value;
            var n, kids := |Children(db.nodes, req.parent)|, Children(after.nodes, req.parent);
            && kids != []
            && (kids[|kids| - 1] == c <==>
                  !Reclusters(db, req.parent) || NextOrder(db.nodes, req.parent) >= n - n / 2)
  {
    var p, c := req.parent, WriteUnder(db, req).1.value;
    WritePosition(db, req);
    WriteSplits(db, req);
    RoomyNewcomer(db, req);
    var kids := Children(MakeRoom(db, p).nodes, p);
    var k := Slot(MakeRoom(db, p).nodes, kids, OrderFor(db.nodes, req));
    LastOfSplice(kids, k, c);
  }

  lemma {:induction false} RoomyNewcomer(db: Db, req: Request)
    requires Inv(db) && req.parent in db.nodes && WriteUnder(db, req).1.Ok?
    ensures WriteUnder(db, req).1.value !in Children(MakeRoom(db, req.parent).nodes, req.parent)
  {
    var roomy := MakeRoom(db, req.parent);
    WriteSplits(db, req);
    ChildrenListed(roomy.nodes, req.parent);
    assert WriteUnder(db, req).1.value !in Kids(roomy.nodes, req.parent);
  }

  lemma {:induction false} LastOfSplice(kids: seq<NodeId>, k: nat, c: NodeId)
    requires k <= |kids| && c !in kids
    ensures var s := kids[..k] + [c] + kids[k..]; s[|s| - 1] == c <==> k == |kids|
  {
    assert k < |kids| ==> kids[|kids| - 1] in kids;
  }

  /** A write splices its own section, and nothing else, into every enclosing collection;
      when it lands last the section follows everything collected from the parent. */
  lemma {:induction false} WriteSplices(db: Db, req: Request, n: NodeId)
    returns (pre: seq<NodeId>, front: seq<NodeId>, back: seq<NodeId>, post: seq<NodeId>)
    requires Inv(db) && req.parent in db.nodes && WriteUnder(db, req).1.Ok? && n in db.nodes
    ensures var after, c := WriteUnder(db, req).0, WriteUnder(db, req).1.value;
            var own := if Contributes(after.nodes[c]) then [c] else [];
            && c !in db.nodes && c in after.nodes && Forest(after.nodes)
            && after.nodes[c].content == req.content && after.nodes[c].parent == Some(req.parent)
            && Collect(db.nodes, req.parent) == front + back
            && (LandsLast(db, req) ==> back == [])
            && n in after.nodes
            && if Within(db.nodes, req.parent, n)
               then Collect(db.nodes, n) == pre + (front + back) + post
                    && Collect(after.nodes, n) == pre + (front + own + back) + post
               else Collect(after.nodes, n) == Collect(db.nodes, n)
  {
    var p := req.parent;
    WriteSplits(db, req);
    WritePosition(db, req);
    var roomy := MakeRoom(db, p);
    var leaf := Leaf(db.nodes[p], req, OrderFor(db.nodes, req));
    front, back := Front(roomy.nodes, p, leaf.order), Back(roomy.nodes, p, leaf.order);
    FrontBack(roomy.nodes, p, leaf.order);
    BackEmpty(roomy.nodes, p, leaf.order);
    InsertAtParent(roomy.nodes, roomy.nextNode, leaf, p);
    pre, post := [], [];
    if Within(roomy.nodes, p, n) {
      pre, post := InsertSplices(roomy.nodes, roomy.nextNode, leaf, p, n);
    } else {
      InsertElsewhere(roomy.nodes, roomy.nextNode, leaf, n);
    }
  }

  lemma {:induction false} FlattenEmptyIff(parts: seq<seq<NodeId>>)
    ensures Flatten(parts) == [] <==> forall i :: 0 <= i < |parts| ==> parts[i] == []
  {
    if parts != [] {
      FlattenEmptyIff(parts[1..]);
      assert forall i :: 0 < i < |parts| ==> parts[i] == parts[1..][i - 1];
    }
  }

  lemma {:induction false} BackEmptyIff(nodes: Nodes, p: NodeId, order: int)
    requires Forest(nodes) && p in nodes
    ensures var kids := Children(nodes, p);
            Back(nodes, p, order) == [] <==> SilentFrom(nodes, kids, Slot(nodes, kids, order))
  {
    var kids := Children(nodes, p);
    var k := Slot(nodes, kids, order);
    SilentPartsIff(nodes, p, kids[k..]);
    SilentShift(nodes, kids, k);
  }

  lemma {:induction false} SilentPartsIff(nodes: Nodes, p: NodeId, kids: seq<NodeId>)
    requires Forest(nodes) && p in nodes && AreKids(nodes, p, kids)
    ensures Flatten(Parts(nodes, p, kids)) == [] <==> SilentFrom(nodes, kids, 0)
  {
    var parts := Parts(nodes, p, kids);
    FlattenEmptyIff(parts);
    if Flatten(parts) == [] {
      forall j | 0 <= j < |kids| ensures Silent(nodes, kids[j]) {
        assert parts[j] == Collect(nodes, kids[j]);
      }
    }
    if SilentFrom(nodes, kids, 0) {
      forall j | 0 <= j < |parts| ensures parts[j] == [] {
        assert Silent(nodes, kids[j]) && parts[j] == Collect(nodes, kids[j]);
      }
    }
  }

  lemma {:induction false} SilentShift(nodes: Nodes, kids: seq<NodeId>, k: nat)
    requires Forest(nodes) && k <= |kids|
    ensures SilentFrom(nodes, kids[k..], 0) <==> SilentFrom(nodes, kids, k)
  {
    var later := kids[k..];
    if SilentFrom(nodes, later, 0) {
      forall i | k <= i < |kids| ensures Silent(nodes, kids[i]) {
        assert later[i - k] == kids[i];
      }
    }
  }

  /** Nothing is printed from the k-th of these nodes on. */
  ghost predicate SilentFrom(nodes: Nodes, kids: seq<NodeId>, k: nat)
    requires Forest(nodes)
  {
    forall i :: k <= i < |kids| ==> Silent(nodes, kids[i])
  }

  /** Nothing is printed from there. */
  ghost predicate Silent(nodes: Nodes, n: NodeId)
    requires Forest(nodes)
  {
    n in nodes && Collect(nodes, n) == []
  }

  lemma {:induction false} SplicedLastIff(front: seq<NodeId>, c: NodeId, back: seq<NodeId>)
    requires c !in back
    ensures front + [c] + back == front + back + [c] <==> back == []
  {
    if back != [] {
      assert (front + [c] + back)[|front|] == c;
      assert (front + back + [c])[|front|] == back[0];
    } else {
      assert front + [c] + back == front + [c] == front + back + [c];
    }
  }

  /** The newcomer's section is printed last of all below its parent exactly when it has none, or
      when no child behind its place prints anything. */
  lemma {:induction false} WritePrintsLastIff(db: Db, req: Request)
    requires Inv(db) && req.parent in db.nodes && WriteUnder(db, req).1.Ok?
    ensures var p, c := req.parent, WriteUnder(db, req).1.value;
            var after, roomy := WriteUnder(db, req).0.nodes, MakeRoom(db, p).nodes;
            var kids := Children(roomy, p);
            && Forest(roomy) && Forest(after) && p in after && c in after
            && (Collect(after, p) == Collect(db.nodes, p) + OwnSection(c, after[c]) <==>
                  !Contributes(after[c]) || SilentFrom(roomy, kids, Slot(roomy, kids, OrderFor(db.nodes, req))))
  {
    var p := req.parent;
    WriteSplits(db, req);
    var roomy, c := MakeRoom(db, p).nodes, WriteUnder(db, req).1.value;
    var leaf := Leaf(db.nodes[p], req, OrderFor(db.nodes, req));
    FrontBack(roomy, p, leaf.order);
    BackEmptyIff(roomy, p, leaf.order);
    InsertAtParent(roomy, c, leaf, p);
    NotCollected(roomy, p, c);
    PrintsLast(Front(roomy, p, leaf.order), OwnSection(c, leaf), c, Back(roomy, p, leaf.order));
  }

  lemma {:induction false} NotCollected(nodes: Nodes, p: NodeId, c: NodeId)
    requires Forest(nodes) && p in nodes && c !in nodes
    ensures c !in Collect(nodes, p)
  {
    CollectFinds(nodes, p, c);
  }

  lemma {:induction false} PrintsLast(front: seq<NodeId>, own: seq<NodeId>, c: NodeId, back: seq<NodeId>)
    requires own == [] || own == [c]
    requires c !in front + back
    ensures front + own + back == front + back + own <==> own == [] || back == []
  {
    if own == [c] {
      SplicedLastIff(front, c, back);
    } else {
      assert front + own + back == front + back == front + back + own;
    }
  }

  lemma {:induction false} BackEmpty(nodes: Nodes, p: NodeId, order: int)
    requires Forest(nodes) && p in nodes
    ensures Slot(nodes, Children(nodes, p), order) == |Children(nodes, p)| ==> Back(nodes, p, order) == []
  {
    var kids := Children(nodes, p);
    if Slot(nodes, kids, order) == |kids| {
      assert kids[|kids|..] == [];
    }
  }

  /** Distinct non-negative orders, at least two of them, are enough to land last. */
  lemma {:induction false} DistinctOrdersLandLast(db: Db, req: Request)
    requires Inv(db) && req.parent in db.nodes && req.order == None
    requires forall k :: k in Kids(db.nodes, req.parent) ==> db.nodes[k].order >= 0
    requires forall j, k :: j in Kids(db.nodes, req.parent) && k in Kids(db.nodes, req.parent) && j != k ==>
                              db.nodes[j].order != db.nodes[k].order
    ensures LandsLast(db, req)
  {
    var kids := Children(db.nodes, req.parent);
    ChildrenListed(db.nodes, req.parent);
    forall i | 0 <= i < |kids| ensures kids[i] in Kids(db.nodes, req.parent) {
      assert kids[i] in kids;
    }
    if kids != [] {
      SpreadOrders(db.nodes, req.parent, kids, |kids| - 1);
    }
  }

  lemma {:induction false} SpreadOrders(nodes: Nodes, p: NodeId, kids: seq<NodeId>, i: nat)
    requires Listing(nodes, Kids(nodes, p), kids) && i < |kids|
    requires forall j :: 0 <= j < |kids| ==> kids[j] in nodes && nodes[kids[j]].order >= 0 && kids[j] in Kids(nodes, p)
    requires forall j, k :: j in Kids(nodes, p) && k in Kids(nodes, p) && j != k ==> nodes[j].order != nodes[k].order
    ensures nodes[kids[i]].order >= i
  {
    if i > 0 {
      SpreadOrders(nodes, p, kids, i - 1);
      assert Before(nodes, kids[i - 1], kids[i]);
    }
  }

  /** Children that were all written with an automatic order all have order 0, because the
      maximum 0 reads as "no children". */
  lemma {:induction false} AutomaticOrdersStayZero(db: Db, req: Request)
    requires Inv(db) && req.parent in db.nodes && req.order == None && WriteUnder(db, req).1.Ok?
    requires forall k :: k in Kids(db.nodes, req.parent) ==> db.nodes[k].order == 0
    requires !Reclusters(db, req.parent)
    ensures forall k :: k in Kids(WriteUnder(db, req).0.nodes, req.parent) ==>
                          WriteUnder(db, req).0.nodes[k].order == 0
  {
    WriteSplits(db, req);
    RoomyChildren(db, req.parent);
    NextOrderZero(db.nodes, req.parent);
  }

  /** A maximum of 0 reads as none. */
  lemma {:induction false} NextOrderZero(nodes: Nodes, p: NodeId)
    requires forall k :: k in Kids(nodes, p) ==> nodes[k].order == 0
    ensures NextOrder(nodes, p) == 0
  {
    MaxOrderIsMaximum(nodes, p);
  }

  /** Their first reclustering then puts the newcomer directly behind the group, in front of
      every child that stayed: the write does not append. */
  lemma {:induction false} ZeroOrdersBreakAppend(db: Db, req: Request)
    requires Inv(db) && req.parent in db.nodes && req.order == None && WriteUnder(db, req).1.Ok?
    requires forall k :: k in Kids(db.nodes, req.parent) ==> db.nodes[k].order == 0
    requires Reclusters(db, req.parent)
    ensures var kids, c := Children(db.nodes, req.parent), WriteUnder(db, req).1.value;
            && !LandsLast(db, req)
            && Children(WriteUnder(db, req).0.nodes, req.parent) == [db.nextNode, c] + kids[|kids| / 2..]
  {
    var kids := Children(db.nodes, req.parent);
    ChildCount(db.nodes, req.parent);
    NextOrderZero(db.nodes, req.parent);
    WritePosition(db, req);
    RoomyChildren(db, req.parent);
    var s := [db.nextNode] + kids[|kids| / 2..];
    assert s[..1] == [db.nextNode] && s[1..] == kids[|kids| / 2..];
    assert [db.nextNode] + [WriteUnder(db, req).1.value] == [db.nextNode, WriteUnder(db, req).1.value];
  }

  // ------------------------------------------------------------------
  // It happens
  // ------------------------------------------------------------------

  /** An unknown type or status fails only after the count test: the store has changed exactly
      when a reclustering was due. */
  lemma {:induction false} BadEnumReclustersIff(db: Db, req: Request)
    requires Inv(db) && req.parent in db.nodes && Truthy(db.nodes[req.parent].summary)
    requires req.kind == None || req.status == None
    ensures WriteUnder(db, req).1 == Err(BadEnum)
    ensures WriteUnder(db, req).0 != db <==> Reclusters(db, req.parent)
  {
    ReclusterIs(db, req.parent);
  }

  predicate Automatic(req: Request) {
    req.order == None && req.kind.Some? && req.status.Some?
  }

  /** k children of order 0 and a summary. */
  ghost predicate ZeroOrders(db: Db, p: NodeId, k: nat, M: int) {
    && p in db.nodes && Truthy(db.nodes[p].summary) && db.nodes[p].tree in db.trees && Limit(db, p) == M
    && |Kids(db.nodes, p)| == k && forall x :: x in Kids(db.nodes, p) ==> db.nodes[x].order == 0
  }

  lemma {:induction false} OneMoreZero(db: Db, req: Request, k: nat, M: int)
    requires Automatic(req) && Inv(db) && ZeroOrders(db, req.parent, k, M) && k < M
    ensures ZeroOrders(WriteUnder(db, req).0, req.parent, k + 1, M)
  {
    var p := req.parent;
    ChildCount(db.nodes, p);
    WriteUnderKeeps(db, req);
    WriteSplits(db, req);
    RoomyChildren(db, p);
    AutomaticOrdersStayZero(db, req);
    var leaf := Leaf(db.nodes[p], req, OrderFor(db.nodes, req));
    InsertKids(db.nodes, db.nextNode, leaf, p);
    OneMoreKid(Kids(db.nodes, p), db.nextNode, Kids(WriteUnder(db, req).0.nodes, p));
  }

  lemma {:induction false} OneMoreKid(S: set<NodeId>, c: NodeId, T: set<NodeId>)
    requires T == S + {c} && c !in S
    ensures |T| == |S| + 1
  {
  }

  /** Whatever max_children M is, from 2 on: once M children were written with automatic orders,
      the next one lands behind the group, in front of the half that was written just before it. */
  lemma {:induction false} FullNodeBreaksAppend(full: Db, req: Request, M: nat)
    requires M >= 2 && Automatic(req) && Inv(full) && ZeroOrders(full, req.parent, M, M)
    ensures var kids := Children(full.nodes, req.parent);
            && |kids| == M && WriteUnder(full, req).1.Ok? && !LandsLast(full, req)
            && Children(WriteUnder(full, req).0.nodes, req.parent)
                 == [full.nextNode, WriteUnder(full, req).1.value] + kids[|kids| / 2..]
  {
    ChildCount(full.nodes, req.parent);
    ZeroOrdersBreakAppend(full, req);
  }

  predicate Printed(req: Request) {
    req.status == Some(Complete) && Truthy(req.content)
  }

  /** The last of at least one child prints a section of its own. */
  ghost predicate LastPrints(nodes: Nodes, p: NodeId) {
    var kids := Children(nodes, p);
    kids != [] && Contributes(nodes[kids[|kids| - 1]])
  }

  lemma {:induction false} NewcomerPrintsLast(db: Db, req: Request)
    requires Inv(db) && req.parent in db.nodes && WriteUnder(db, req).1.Ok? && Printed(req) && req.order == None
    requires !Reclusters(db, req.parent)
    ensures LastPrints(WriteUnder(db, req).0.nodes, req.parent)
  {
    WriteAppendsIff(db, req);
    NewcomerPrints(db, req);
  }

  /** If the last of such children prints, the newcomer's section comes out of turn. */
  lemma {:induction false} FullNodeBreaksPrinting(full: Db, req: Request, M: nat)
    requires M >= 2 && Automatic(req) && Printed(req) && Inv(full) && ZeroOrders(full, req.parent, M, M)
    requires LastPrints(full.nodes, req.parent)
    ensures WriteUnder(full, req).1.Ok?
    ensures var after, c := WriteUnder(full, req).0.nodes, WriteUnder(full, req).1.value;
            && Forest(after) && req.parent in after
            && Collect(after, req.parent) != Collect(full.nodes, req.parent) + [c]
  {
    FullNodeBreaksAppend(full, req, M);
    WritePrintsLastIff(full, req);
    RightBehindGroup(full, req, M);
    StayerPrints(full, req.parent, MakeRoom(full, req.parent));
    NewcomerPrints(full, req);
  }

  lemma {:induction false} NewcomerPrints(db: Db, req: Request)
    requires Inv(db) && req.parent in db.nodes && WriteUnder(db, req).1.Ok? && Printed(req)
    ensures var after, c := WriteUnder(db, req).0.nodes, WriteUnder(db, req).1.value;
            c in after && OwnSection(c, after[c]) == [c]
  {
  }

  /** The last of the children stays, and it still prints after a reclustering. */
  lemma {:induction false} StayerPrints(full: Db, p: NodeId, roomy: Db)
    requires Inv(full) && p in full.nodes && Truthy(full.nodes[p].summary) && roomy == MakeRoom(full, p)
    requires Reclusters(full, p) && LastPrints(full.nodes, p)
    ensures Forest(roomy.nodes)
    ensures var kids := Children(roomy.nodes, p); |kids| >= 2 && !Silent(roomy.nodes, kids[|kids| - 1])
  {
    var last := LastStays(full, p, roomy);
    StillPrints(full, roomy, p, last);
  }

  lemma {:induction false} LastStays(full: Db, p: NodeId, roomy: Db) returns (last: NodeId)
    requires Inv(full) && p in full.nodes && Truthy(full.nodes[p].summary) && roomy == MakeRoom(full, p)
    requires Reclusters(full, p) && LastPrints(full.nodes, p)
    ensures last in full.nodes && Contributes(full.nodes[last])
    ensures var kids := Children(roomy.nodes, p); |kids| >= 2 && last == kids[|kids| - 1]
  {
    RoomyChildren(full, p);
    last := LastIsKid(full.nodes, p, full.nextNode, Children(full.nodes, p), Children(roomy.nodes, p));
  }

  lemma {:induction false} RightBehindGroup(full: Db, req: Request, M: nat)
    requires M >= 2 && Automatic(req) && Inv(full) && ZeroOrders(full, req.parent, M, M)
    ensures Reclusters(full, req.parent) && |Children(full.nodes, req.parent)| >= 2
    ensures var roomy := MakeRoom(full, req.parent).nodes;
            var kids := Children(roomy, req.parent);
            Slot(roomy, kids, OrderFor(full.nodes, req)) == 1 && |kids| >= 2
  {
    ChildCount(full.nodes, req.parent);
    NextOrderZero(full.nodes, req.parent);
    RoomyChildren(full, req.parent);
    SlotOfWrite(full, req);
  }

  lemma {:induction false} LastIsKid(nodes: Nodes, p: NodeId, g: NodeId, kids: seq<NodeId>, behind: seq<NodeId>)
    returns (last: NodeId)
    requires kids == Children(nodes, p) && LastPrints(nodes, p)
    requires |kids| >= 2 && behind == [g] + kids[|kids| / 2..]
    ensures |behind| >= 2 && last == behind[|behind| - 1] && last in nodes && Contributes(nodes[last])
  {
    last := kids[|kids| - 1];
    ChildrenListed(nodes, p);
    assert last in kids;
  }

  lemma {:induction false} StillPrints(db: Db, roomy: Db, p: NodeId, n: NodeId)
    requires Inv(db) && p in db.nodes && Truthy(db.nodes[p].summary) && roomy == MakeRoom(db, p)
    requires n in db.nodes && Contributes(db.nodes[n])
    ensures Forest(roomy.nodes) && !Silent(roomy.nodes, n)
  {
    MakeRoomKeeps(db, p);
    assert Kept(db, roomy, n);
    CollectFinds(db.nodes, n, n);
  }

  /** What goes wrong with the next write there: it does not land last; with an unknown type it
      fails after changing the store; and if it prints, its section comes out of turn. */
  ghost predicate FailsAt(db: Db, next: Request, prints: bool)
    requires Inv(db) && next.parent in db.nodes
  {
    && WriteUnder(db, next).1.Ok? && !LandsLast(db, next)
    && WriteUnder(db, next.(kind := None)).1 == Err(BadEnum)
    && WriteUnder(db, next.(kind := None)).0 != db
    && (prints ==>
          var after := WriteUnder(db, next).0.nodes;
          && Forest(after) && next.parent in after
          && Collect(after, next.parent) != Collect(db.nodes, next.parent) + [WriteUnder(db, next).1.value])
  }

  lemma {:induction false} FullNodeFails(full: Db, next: Request, M: nat, prints: bool)
    requires M >= 2 && Automatic(next) && Inv(full) && ZeroOrders(full, next.parent, M, M)
    requires prints ==> Printed(next) && LastPrints(full.nodes, next.parent)
    ensures FailsAt(full, next, prints)
  {
    FullNodeBreaksAppend(full, next, M);
    RightBehindGroup(full, next, M);
    BadEnumReclustersIff(full, next.(kind := None));
    if prints {
      FullNodeBreaksPrinting(full, next, M);
    }
  }
}
