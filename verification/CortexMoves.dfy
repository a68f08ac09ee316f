/** The pointer surgeries the service performs, and what each one does to the
    forest, the child lists, the breadcrumbs and the depth-first collection. */
module CortexMoves {
  import opened Basics
  import opened CortexModel

  lemma {:induction false} Cut<T>(s: seq<T>, k: nat)
    requires k <= |s|
    ensures s == s[..k] + s[k..]
    ensures k < |s| ==> s == s[..k] + [s[k]] + s[k + 1..]
    ensures forall x :: x in s <==> x in s[..k] || x in s[k..]
  {
    assert forall x :: x in s[..k] + s[k..] <==> x in s[..k] || x in s[k..];
  }

  lemma {:induction false} Regroup(a: seq<NodeId>, b: seq<NodeId>, c: seq<NodeId>, d: seq<NodeId>, e: seq<NodeId>)
    ensures a + (b + c + d) + e == (a + b) + c + (d + e)
  {
  }

  lemma {:induction false} Prepend(own: seq<NodeId>, a: seq<NodeId>, c: seq<NodeId>, b: seq<NodeId>)
    ensures own + (a + c + b) == (own + a) + c + b
  {
  }

  // ------------------------------------------------------------------
  // Relabelling: nothing that orders or links nodes changes
  // ------------------------------------------------------------------

  ghost predicate Relabelled(nodes: Nodes, after: Nodes) {
    && after.Keys == nodes.Keys
    && (forall n :: n in nodes ==> after[n].parent == nodes[n].parent && after[n].order == nodes[n].order)
    && (forall n :: n in nodes ==> Contributes(after[n]) == Contributes(nodes[n]))
  }

  lemma {:induction false} RelabelledChildren(nodes: Nodes, after: Nodes, p: NodeId)
    requires Relabelled(nodes, after)
    ensures Kids(after, p) == Kids(nodes, p)
    ensures Children(after, p) == Children(nodes, p)
  {
    assert Kids(after, p) == Kids(nodes, p);
    ChildrenListed(nodes, p);
    assert Listing(after, Kids(after, p), Children(nodes, p));
    ChildrenAre(after, p, Children(nodes, p));
  }

  lemma {:induction false} RelabelledPath(nodes: Nodes, after: Nodes, n: NodeId)
    requires Forest(nodes) && Forest(after) && Relabelled(nodes, after) && n in nodes
    ensures Path(after, n) == Path(nodes, n)
    decreases Up(nodes, n)
  {
    if nodes[n].parent.Some? {
      ParentRanks(nodes, n);
      RelabelledPath(nodes, after, nodes[n].parent.value);
    }
  }

  lemma {:induction false} RelabelledCollect(nodes: Nodes, after: Nodes, n: NodeId)
    requires Forest(nodes) && Forest(after) && Relabelled(nodes, after) && n in nodes
    ensures Collect(after, n) == Collect(nodes, n)
    decreases Down(nodes, n)
  {
    var kids := Children(nodes, n);
    RelabelledChildren(nodes, after, n);
    forall i | 0 <= i < |kids| ensures Collect(after, kids[i]) == Collect(nodes, kids[i]) {
      ParentRanks(nodes, kids[i]);
      RelabelledCollect(nodes, after, kids[i]);
    }
    assert Parts(after, n, kids) == Parts(nodes, n, kids);
  }

  // ------------------------------------------------------------------
  // A new node without children
  // ------------------------------------------------------------------

  ghost predicate Fresh(nodes: Nodes, c: NodeId, leaf: Node) {
    && Forest(nodes)
    && (forall n :: n in nodes ==> n < c)
    && (leaf.parent.Some? ==> leaf.parent.value in nodes)
  }

  lemma {:induction false} InsertForest(nodes: Nodes, c: NodeId, leaf: Node)
    requires Fresh(nodes, c, leaf)
    ensures Forest(nodes[c := leaf])
  {
    var r := Ranking(nodes);
    var top := if leaf.parent.Some? then r.0[leaf.parent.value] + 1 else 0;
    var after, rank := nodes[c := leaf], r.0[c := top];
    forall n | n in after ensures Linked(after, rank, n) {
      if n in nodes {
        assert Linked(nodes, r.0, n);
      }
    }
    assert Ranked(after, rank, r.1 + top);
  }

  /** How many of the listed children sort before a newcomer of the given order. */
  function Slot(nodes: Nodes, kids: seq<NodeId>, order: int): (k: nat)
    requires forall i :: 0 <= i < |kids| ==> kids[i] in nodes
    ensures k <= |kids|
  {
    if kids == [] || nodes[kids[|kids| - 1]].order <= order then |kids|
    else Slot(nodes, kids[..|kids| - 1], order)
  }

  lemma {:induction false} SlotSplits(nodes: Nodes, kids: seq<NodeId>, order: int)
    requires forall i :: 0 <= i < |kids| ==> kids[i] in nodes
    ensures var k := Slot(nodes, kids, order);
            && (k > 0 ==> nodes[kids[k - 1]].order <= order)
            && (forall i :: k <= i < |kids| ==> nodes[kids[i]].order > order)
  {
    if kids != [] && nodes[kids[|kids| - 1]].order > order {
      SlotSplits(nodes, kids[..|kids| - 1], order);
    }
  }

  lemma {:induction false} InsertKids(nodes: Nodes, c: NodeId, leaf: Node, p: NodeId)
    requires Fresh(nodes, c, leaf) && p in nodes
    ensures Kids(nodes[c := leaf], c) == {}
    ensures Kids(nodes[c := leaf], p) == Kids(nodes, p) + (if leaf.parent == Some(p) then {c} else {})
  {
    forall n | n in nodes && nodes[n].parent.Some? ensures nodes[n].parent != Some(c) {
      ParentRanks(nodes, n);
    }
  }

  lemma {:induction false} PlacedListing(nodes: Nodes, c: NodeId, leaf: Node, S: set<NodeId>, kids: seq<NodeId>)
    requires Listing(nodes, S, kids) && forall n :: n in nodes ==> n < c
    requires forall i :: 0 <= i < |kids| ==> kids[i] in nodes
    ensures var k := Slot(nodes, kids, leaf.order);
            Listing(nodes[c := leaf], S + {c}, kids[..k] + [c] + kids[k..])
  {
    var after := nodes[c := leaf];
    var k := Slot(nodes, kids, leaf.order);
    var s := kids[..k] + [c] + kids[k..];
    forall i, j | 0 <= i < j < |s| ensures s[i] in after && s[j] in after && Before(after, s[i], s[j]) {
      var a, b := if i < k then kids[i] else if i == k then c else kids[i - 1],
                  if j < k then kids[j] else if j == k then c else kids[j - 1];
      assert s[i] == a && s[j] == b;
      PlacedBefore(nodes, c, leaf, S, kids, i, j);
    }
    Cut(kids, k);
    assert forall x :: x in s <==> x in kids[..k] || x == c || x in kids[k..];
  }

  lemma {:induction false} PlacedBefore(
    nodes: Nodes, c: NodeId, leaf: Node, S: set<NodeId>, kids: seq<NodeId>, i: nat, j: nat)
    requires Listing(nodes, S, kids) && forall n :: n in nodes ==> n < c
    requires forall i :: 0 <= i < |kids| ==> kids[i] in nodes
    requires i < j <= |kids|
    ensures var k := Slot(nodes, kids, leaf.order);
            Before(nodes[c := leaf], if i < k then kids[i] else if i == k then c else kids[i - 1],
                                     if j < k then kids[j] else if j == k then c else kids[j - 1])
  {
    var k := Slot(nodes, kids, leaf.order);
    SlotSplits(nodes, kids, leaf.order);
    if i < k == j {
      assert i == k - 1 || Before(nodes, kids[i], kids[k - 1]);
    } else if i != k {
      assert Before(nodes, kids[if i < k then i else i - 1], kids[if j < k then j else j - 1]);
    }
  }

  /** The newcomer goes behind every sibling whose order does not exceed its own. */
  lemma {:induction false} InsertChildren(nodes: Nodes, c: NodeId, leaf: Node, p: NodeId)
    requires Fresh(nodes, c, leaf) && p in nodes
    ensures Children(nodes[c := leaf], c) == []
    ensures leaf.parent != Some(p) ==> Children(nodes[c := leaf], p) == Children(nodes, p)
    ensures leaf.parent == Some(p) ==>
              var kids := Children(nodes, p);
              var k := Slot(nodes, kids, leaf.order);
              Children(nodes[c := leaf], p) == kids[..k] + [c] + kids[k..]
  {
    var after := nodes[c := leaf];
    var kids := Children(nodes, p);
    InsertKids(nodes, c, leaf, p);
    ChildrenListed(nodes, p);
    ChildrenAre(after, c, []);
    if leaf.parent != Some(p) {
      assert Listing(after, Kids(after, p), kids);
      ChildrenAre(after, p, kids);
    } else {
      PlacedListing(nodes, c, leaf, Kids(nodes, p), kids);
      var k := Slot(nodes, kids, leaf.order);
      ChildrenAre(after, p, kids[..k] + [c] + kids[k..]);
    }
  }

  lemma {:induction false} InsertPath(nodes: Nodes, c: NodeId, leaf: Node, n: NodeId)
    requires Fresh(nodes, c, leaf) && Forest(nodes[c := leaf]) && n in nodes
    ensures Path(nodes[c := leaf], n) == Path(nodes, n)
    decreases Up(nodes, n)
  {
    if nodes[n].parent.Some? {
      ParentRanks(nodes, n);
      InsertPath(nodes, c, leaf, nodes[n].parent.value);
    }
  }

  /** Collections that do not pass through the new node's parent are untouched. */
  lemma {:induction false} InsertElsewhere(nodes: Nodes, c: NodeId, leaf: Node, n: NodeId)
    requires Fresh(nodes, c, leaf) && Forest(nodes[c := leaf]) && n in nodes
    requires leaf.parent.Some? ==> !Within(nodes, leaf.parent.value, n)
    ensures Collect(nodes[c := leaf], n) == Collect(nodes, n)
    decreases Down(nodes, n)
  {
    var after := nodes[c := leaf];
    var kids := Children(nodes, n);
    InsertChildren(nodes, c, leaf, n);
    forall i | 0 <= i < |kids| ensures Collect(after, kids[i]) == Collect(nodes, kids[i]) {
      ParentRanks(nodes, kids[i]);
      if leaf.parent.Some? {
        WithinStep(nodes, leaf.parent.value, kids[i], n);
      }
      InsertElsewhere(nodes, c, leaf, kids[i]);
    }
    assert Parts(after, n, kids) == Parts(nodes, n, kids);
  }

  /** The two halves of p's collection around the place where a newcomer of this order goes. */
  ghost function Front(nodes: Nodes, p: NodeId, order: int): seq<NodeId>
    requires Forest(nodes) && p in nodes
  {
    var kids := Children(nodes, p);
    Own(nodes, p) + Flatten(Parts(nodes, p, kids[..Slot(nodes, kids, order)]))
  }

  ghost function Back(nodes: Nodes, p: NodeId, order: int): seq<NodeId>
    requires Forest(nodes) && p in nodes
  {
    var kids := Children(nodes, p);
    Flatten(Parts(nodes, p, kids[Slot(nodes, kids, order)..]))
  }

  lemma {:induction false} FrontBack(nodes: Nodes, p: NodeId, order: int)
    requires Forest(nodes) && p in nodes
    ensures Collect(nodes, p) == Front(nodes, p, order) + Back(nodes, p, order)
  {
    var kids := Children(nodes, p);
    var k := Slot(nodes, kids, order);
    PartsAppend(nodes, p, kids[..k], kids[k..]);
    Cut(kids, k);
  }

  lemma {:induction false} PartsAppend(nodes: Nodes, p: NodeId, a: seq<NodeId>, b: seq<NodeId>)
    requires Forest(nodes) && p in nodes && AreKids(nodes, p, a) && AreKids(nodes, p, b)
    ensures Flatten(Parts(nodes, p, a + b)) == Flatten(Parts(nodes, p, a)) + Flatten(Parts(nodes, p, b))
  {
    assert Parts(nodes, p, a + b) == Parts(nodes, p, a) + Parts(nodes, p, b);
    FlattenAppend(Parts(nodes, p, a), Parts(nodes, p, b));
  }

  lemma {:induction false} PartsAround(nodes: Nodes, p: NodeId, a: seq<NodeId>, c: NodeId, b: seq<NodeId>)
    requires Forest(nodes) && p in nodes && AreKids(nodes, p, a + [c] + b)
    ensures c in nodes && AreKids(nodes, p, a) && AreKids(nodes, p, b)
    ensures Flatten(Parts(nodes, p, a + [c] + b))
         == Flatten(Parts(nodes, p, a)) + Collect(nodes, c) + Flatten(Parts(nodes, p, b))
  {
    KidsAround(nodes, p, a, c, b);
    PartsAppend(nodes, p, a + [c], b);
    PartsAppend(nodes, p, a, [c]);
    assert Parts(nodes, p, [c]) == [Collect(nodes, c)];
    FlattenOne(Collect(nodes, c));
  }

  lemma {:induction false} KidsAround(nodes: Nodes, p: NodeId, a: seq<NodeId>, c: NodeId, b: seq<NodeId>)
    requires AreKids(nodes, p, a + [c] + b)
    ensures AreKids(nodes, p, a + [c]) && AreKids(nodes, p, a) && AreKids(nodes, p, [c]) && AreKids(nodes, p, b)
  {
    var s := a + [c] + b;
    assert forall i :: 0 <= i < |a| + 1 ==> (a + [c])[i] == s[i];
    assert s[|a|] == c;
    assert forall i :: 0 <= i < |a| ==> a[i] == s[i];
    assert forall i :: 0 <= i < |b| ==> b[i] == s[|a| + 1 + i];
  }

  /** The section the new node itself contributes. */
  function OwnSection(c: NodeId, leaf: Node): seq<NodeId> {
    if Contributes(leaf) then [c] else []
  }

  lemma {:induction false} LeafCollects(nodes: Nodes, c: NodeId)
    requires Forest(nodes) && c in nodes && Children(nodes, c) == []
    ensures Collect(nodes, c) == Own(nodes, c)
  {
    assert Own(nodes, c) + [] == Own(nodes, c);
  }

  lemma {:induction false} InsertAtParent(nodes: Nodes, c: NodeId, leaf: Node, p: NodeId)
    requires Fresh(nodes, c, leaf) && leaf.parent == Some(p) && Forest(nodes[c := leaf])
    ensures Collect(nodes[c := leaf], p) ==
            Front(nodes, p, leaf.order) + OwnSection(c, leaf) + Back(nodes, p, leaf.order)
  {
    var after := nodes[c := leaf];
    var kids := Children(nodes, p);
    var k := Slot(nodes, kids, leaf.order);
    var a, b := kids[..k], kids[k..];
    InsertChildren(nodes, c, leaf, p);
    PartsAround(after, p, a, c, b);
    InsertedParts(nodes, c, leaf, p, a);
    InsertedParts(nodes, c, leaf, p, b);
    LeafCollects(after, c);
    Prepend(Own(nodes, p), Flatten(Parts(nodes, p, a)), OwnSection(c, leaf), Flatten(Parts(nodes, p, b)));
  }

  /** Old children of the parent collect what they did. */
  lemma {:induction false} InsertedParts(nodes: Nodes, c: NodeId, leaf: Node, p: NodeId, kids: seq<NodeId>)
    requires Fresh(nodes, c, leaf) && leaf.parent == Some(p) && Forest(nodes[c := leaf])
    requires AreKids(nodes, p, kids)
    ensures AreKids(nodes[c := leaf], p, kids)
    ensures Parts(nodes[c := leaf], p, kids) == Parts(nodes, p, kids)
  {
    forall i | 0 <= i < |kids| ensures Collect(nodes[c := leaf], kids[i]) == Collect(nodes, kids[i]) {
      NotBelowChild(nodes, p, kids[i]);
      InsertElsewhere(nodes, c, leaf, kids[i]);
    }
  }

  /** Inserting a leaf splices its section into the collection of every ancestor-or-self n
      of its parent, at the leaf's place among its siblings, and changes nothing else. */
  lemma {:induction false} InsertSplices(nodes: Nodes, c: NodeId, leaf: Node, p: NodeId, n: NodeId)
    returns (pre: seq<NodeId>, post: seq<NodeId>)
    requires Fresh(nodes, c, leaf) && leaf.parent == Some(p) && Forest(nodes[c := leaf])
    requires n in nodes && Within(nodes, p, n)
    ensures Collect(nodes, n) == pre + Collect(nodes, p) + post
    ensures Collect(nodes[c := leaf], n) == pre + Collect(nodes[c := leaf], p) + post
    decreases Down(nodes, n)
  {
    if n == p {
      pre, post := [], [];
    } else {
      var q := Branch(nodes, p, n);
      ParentRanks(nodes, q);
      var pre', post' := InsertSplices(nodes, c, leaf, p, q);
      var before, behind := InsertStep(nodes, c, leaf, p, n, q);
      pre, post := before + pre', post' + behind;
      Regroup(before, pre', Collect(nodes, p), post', behind);
      Regroup(before, pre', Collect(nodes[c := leaf], p), post', behind);
    }
  }

  /** One step up: around its child q on the way to p, n's collection is unchanged. */
  lemma {:induction false} InsertStep(nodes: Nodes, c: NodeId, leaf: Node, p: NodeId, n: NodeId, q: NodeId)
    returns (before: seq<NodeId>, behind: seq<NodeId>)
    requires Fresh(nodes, c, leaf) && leaf.parent == Some(p) && Forest(nodes[c := leaf])
    requires n in nodes && n != p && q in Kids(nodes, n) && Within(nodes, p, q)
    ensures Collect(nodes, n) == before + Collect(nodes, q) + behind
    ensures Collect(nodes[c := leaf], n) == before + Collect(nodes[c := leaf], q) + behind
  {
    var after := nodes[c := leaf];
    var kids := Children(nodes, n);
    ChildrenListed(nodes, n);
    assert q in kids;
    var i :| 0 <= i < |kids| && kids[i] == q;
    var a, b := kids[..i], kids[i + 1..];
    forall k | k in a || k in b ensures k in Kids(nodes, n) && k != q {
      OtherSibling(nodes, n, kids, i, k);
    }
    InsertChildren(nodes, c, leaf, n);
    Cut(kids, i);
    KidsAround(nodes, n, a, q, b);
    SiblingParts(nodes, c, leaf, p, n, q, a);
    SiblingParts(nodes, c, leaf, p, n, q, b);
    before, behind := Own(nodes, n) + Flatten(Parts(nodes, n, a)), Flatten(Parts(nodes, n, b));
    CollectAround(nodes, n, a, q, b);
    CollectAround(after, n, a, q, b);
  }

  lemma {:induction false} CollectAround(nodes: Nodes, n: NodeId, a: seq<NodeId>, q: NodeId, b: seq<NodeId>)
    requires Forest(nodes) && n in nodes && Children(nodes, n) == a + [q] + b
    ensures q in nodes && AreKids(nodes, n, a) && AreKids(nodes, n, b)
    ensures Collect(nodes, n)
         == (Own(nodes, n) + Flatten(Parts(nodes, n, a))) + Collect(nodes, q) + Flatten(Parts(nodes, n, b))
  {
    PartsAround(nodes, n, a, q, b);
    Prepend(Own(nodes, n), Flatten(Parts(nodes, n, a)), Collect(nodes, q), Flatten(Parts(nodes, n, b)));
  }

  lemma {:induction false} OtherSibling(nodes: Nodes, n: NodeId, kids: seq<NodeId>, i: nat, k: NodeId)
    requires Listing(nodes, Kids(nodes, n), kids) && i < |kids|
    requires k in kids[..i] || k in kids[i + 1..]
    ensures k in Kids(nodes, n) && k != kids[i]
  {
    var j :| 0 <= j < |kids| && j != i && kids[j] == k;
    assert kids[j] in kids && kids[i] in kids;
    assert Before(nodes, kids[if i < j then i else j], kids[if i < j then j else i]);
  }

  /** Siblings beside the way to p collect what they did. */
  lemma {:induction false} SiblingParts(nodes: Nodes, c: NodeId, leaf: Node, p: NodeId, n: NodeId, q: NodeId,
                                        kids: seq<NodeId>)
    requires Fresh(nodes, c, leaf) && leaf.parent == Some(p) && Forest(nodes[c := leaf])
    requires n in nodes && q in Kids(nodes, n) && Within(nodes, p, q)
    requires AreKids(nodes, n, kids) && q !in kids
    ensures AreKids(nodes[c := leaf], n, kids)
    ensures Parts(nodes[c := leaf], n, kids) == Parts(nodes, n, kids)
  {
    forall j | 0 <= j < |kids| ensures Collect(nodes[c := leaf], kids[j]) == Collect(nodes, kids[j]) {
      if Within(nodes, p, kids[j]) {
        SiblingsOnPath(nodes, p, kids[j], q);
        assert false;
      }
      InsertElsewhere(nodes, c, leaf, kids[j]);
    }
  }
}
