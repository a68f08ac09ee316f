/** Reclustering as one surgery: a contentless group node adopts the first half of p's
    children, the other half is renumbered behind it. */
module CortexRegroup {
  import opened Basics
  import opened CortexModel
  import opened CortexMoves

  ghost predicate Regrouped(nodes: Nodes, after: Nodes, p: NodeId, half: nat, g: NodeId, group: Node) {
    var kids := Children(nodes, p);
    && p in nodes && 1 <= half <= |kids|
    && Fresh(nodes, g, group) && group.parent == Some(p) && group.order == 0 && !Contributes(group)
    && after.Keys == nodes.Keys + {g}
    && after[g] == group
    && (forall i :: 0 <= i < half ==> after[kids[i]] == nodes[kids[i]].(parent := Some(g), order := i))
    && (forall i :: half <= i < |kids| ==> after[kids[i]] == nodes[kids[i]].(order := i - half + 1))
    && (forall x :: x in nodes && nodes[x].parent != Some(p) ==> after[x] == nodes[x])
  }

  /** Only the moved children change parent; nothing but parent and order changes at all. */
  lemma {:induction false} RegroupFields(nodes: Nodes, after: Nodes, p: NodeId, half: nat, g: NodeId, group: Node,
                                         x: NodeId)
    requires Regrouped(nodes, after, p, half, g, group) && x in nodes
    ensures after[x] == nodes[x].(parent := after[x].parent, order := after[x].order)
    ensures after[x].parent == if x in Children(nodes, p)[..half] then Some(g) else nodes[x].parent
    ensures x in Children(nodes, p)[..half] ==> nodes[x].parent == Some(p)
  {
    var kids := Children(nodes, p);
    ChildrenListed(nodes, p);
    if nodes[x].parent == Some(p) {
      assert x in Kids(nodes, p) && x in kids;
      var i :| 0 <= i < |kids| && kids[i] == x;
      if i < half {
        assert kids[..half][i] == x;
      }
    }
  }

  lemma {:induction false} RegroupForest(nodes: Nodes, after: Nodes, p: NodeId, half: nat, g: NodeId, group: Node)
    requires Regrouped(nodes, after, p, half, g, group)
    ensures Forest(after)
  {
    var r := Ranking(nodes);
    var rank := map n | n in after :: if n == g then 2 * r.0[p] + 1 else 2 * r.0[n];
    forall n | n in after ensures Linked(after, rank, n) {
      if n != g {
        RegroupFields(nodes, after, p, half, g, group, n);
        assert Linked(nodes, r.0, n);
      }
    }
    assert Ranked(after, rank, 2 * r.1 + 1);
  }

  /** The old parent keeps the group and the second half, the group has the first half. */
  lemma {:induction false} RegroupChildren(nodes: Nodes, after: Nodes, p: NodeId, half: nat, g: NodeId, group: Node,
                                           q: NodeId)
    requires Regrouped(nodes, after, p, half, g, group) && q in after
    ensures Children(after, q) == if q == p then [g] + Children(nodes, p)[half..]
                                  else if q == g then Children(nodes, p)[..half]
                                  else Children(nodes, q)
  {
    var kids := Children(nodes, p);
    ChildrenListed(nodes, p);
    RegroupKids(nodes, after, p, half, g, group, q);
    if q == p {
      var s := [g] + kids[half..];
      assert forall x :: x in s <==> x == g || x in kids[half..];
      forall i, j | 0 <= i < j < |s| ensures s[i] in after && s[j] in after && Before(after, s[i], s[j]) {
        assert s[j] == kids[half + j - 1];
        assert i > 0 ==> s[i] == kids[half + i - 1];
      }
      assert Listing(after, Kids(after, p), s);
      ChildrenAre(after, p, s);
    } else if q == g {
      assert Listing(after, Kids(after, g), kids[..half]);
      ChildrenAre(after, g, kids[..half]);
    } else {
      ChildrenListed(nodes, q);
      OthersListed(nodes, after, p, half, g, group, q);
      ChildrenAre(after, q, Children(nodes, q));
    }
  }

  lemma {:induction false} OthersListed(nodes: Nodes, after: Nodes, p: NodeId, half: nat, g: NodeId, group: Node,
                                        q: NodeId)
    requires Regrouped(nodes, after, p, half, g, group) && q in nodes && q != p
    requires Kids(after, q) == Kids(nodes, q)
    ensures Listing(after, Kids(after, q), Children(nodes, q))
  {
    ChildrenListed(nodes, q);
  }

  lemma {:induction false} RegroupKids(nodes: Nodes, after: Nodes, p: NodeId, half: nat, g: NodeId, group: Node,
                                       q: NodeId)
    requires Regrouped(nodes, after, p, half, g, group) && q in after
    ensures var kids := Children(nodes, p);
            if q == p then forall x :: x in Kids(after, q) <==> x == g || x in kids[half..]
            else if q == g then forall x :: x in Kids(after, q) <==> x in kids[..half]
            else Kids(after, q) == Kids(nodes, q)
  {
    forall x | x in nodes
      ensures x in Kids(after, p) <==> x in Children(nodes, p)[half..]
      ensures x in Kids(after, g) <==> x in Children(nodes, p)[..half]
      ensures q != p && q != g ==> (x in Kids(after, q) <==> x in Kids(nodes, q))
    {
      RegroupParent(nodes, after, p, half, g, group, x);
    }
    if q != p && q != g {
      assert Kids(after, q) == Kids(nodes, q);
    }
  }

  lemma {:induction false} RegroupParent(nodes: Nodes, after: Nodes, p: NodeId, half: nat, g: NodeId, group: Node,
                                         x: NodeId)
    requires Regrouped(nodes, after, p, half, g, group) && x in nodes
    ensures after[x].parent == Some(p) <==> x in Children(nodes, p)[half..]
    ensures after[x].parent == Some(g) <==> x in Children(nodes, p)[..half]
    ensures after[x].parent != Some(p) && after[x].parent != Some(g) ==> after[x].parent == nodes[x].parent
    ensures nodes[x].parent == Some(p) ==> after[x].parent == Some(p) || after[x].parent == Some(g)
  {
    var kids := Children(nodes, p);
    ChildrenListed(nodes, p);
    Cut(kids, half);
    RegroupFields(nodes, after, p, half, g, group, x);
    assert x in Kids(nodes, p) <==> x in kids;
    if nodes[x].parent.Some? {
      ParentRanks(nodes, x);
    }
    if x in kids[half..] {
      var i :| half <= i < |kids| && kids[i] == x;
      assert after[kids[i]].parent == nodes[kids[i]].parent;
    }
  }

  /** Reclustering preserves meaning: every depth-first collection stays what it was. */
  lemma {:induction false} RegroupCollect(nodes: Nodes, after: Nodes, p: NodeId, half: nat, g: NodeId, group: Node,
                                          n: NodeId)
    requires Regrouped(nodes, after, p, half, g, group) && Forest(after) && n in nodes
    ensures Collect(after, n) == Collect(nodes, n)
    decreases Down(nodes, n)
  {
    var kids := Children(nodes, n);
    forall i | 0 <= i < |kids| ensures Collect(after, kids[i]) == Collect(nodes, kids[i]) {
      ParentRanks(nodes, kids[i]);
      RegroupCollect(nodes, after, p, half, g, group, kids[i]);
    }
    RegroupChildren(nodes, after, p, half, g, group, n);
    RegroupFields(nodes, after, p, half, g, group, n);
    if n == p {
      RegroupCollectParent(nodes, after, p, half, g, group);
    } else {
      assert Parts(after, n, kids) == Parts(nodes, n, kids);
    }
  }

  lemma {:induction false} RegroupCollectParent(
    nodes: Nodes, after: Nodes, p: NodeId, half: nat, g: NodeId, group: Node)
    requires Regrouped(nodes, after, p, half, g, group) && Forest(after)
    requires forall i :: 0 <= i < |Children(nodes, p)| ==>
               Children(nodes, p)[i] in after
               && Collect(after, Children(nodes, p)[i]) == Collect(nodes, Children(nodes, p)[i])
    ensures Collect(after, p) == Collect(nodes, p)
  {
    var kids := Children(nodes, p);
    var a, b := kids[..half], kids[half..];
    RegroupChildren(nodes, after, p, half, g, group, p);
    RegroupChildren(nodes, after, p, half, g, group, g);
    RegroupFields(nodes, after, p, half, g, group, p);
    KidsAfterFirst(after, p, g, b);
    assert Parts(after, g, a) == Parts(nodes, p, a);
    assert Parts(after, p, b) == Parts(nodes, p, b);
    Cut(kids, half);
    PartsAppend(nodes, p, a, b);
    FirstPart(after, p, g, b);
    NoPrefix(Own(after, g), Flatten(Parts(after, g, a)));
  }

  lemma {:induction false} FirstPart(nodes: Nodes, p: NodeId, g: NodeId, b: seq<NodeId>)
    requires Forest(nodes) && p in nodes && AreKids(nodes, p, [g] + b)
    ensures AreKids(nodes, p, b) && g in nodes
    ensures Flatten(Parts(nodes, p, [g] + b)) == Collect(nodes, g) + Flatten(Parts(nodes, p, b))
  {
    KidsAfterFirst(nodes, p, g, b);
    PartsAppend(nodes, p, [g], b);
    assert Parts(nodes, p, [g]) == [Collect(nodes, g)];
    FlattenOne(Collect(nodes, g));
  }

  lemma {:induction false} KidsAfterFirst(nodes: Nodes, p: NodeId, g: NodeId, b: seq<NodeId>)
    requires AreKids(nodes, p, [g] + b)
    ensures AreKids(nodes, p, [g]) && AreKids(nodes, p, b)
  {
    var s := [g] + b;
    assert s[0] == g;
    assert forall i :: 0 <= i < |b| ==> b[i] == s[i + 1];
  }

  lemma {:induction false} NoPrefix(a: seq<NodeId>, b: seq<NodeId>)
    ensures a == [] ==> a + b == b
  {
  }

  /** A list of ids without the id g. */
  function Erase(path: seq<NodeId>, g: NodeId): seq<NodeId> {
    if path == [] then []
    else Erase(path[..|path| - 1], g) + if path[|path| - 1] == g then [] else [path[|path| - 1]]
  }

  lemma {:induction false} EraseFinds(path: seq<NodeId>, g: NodeId, x: NodeId)
    ensures x in Erase(path, g) <==> x in path && x != g
  {
    if path != [] {
      EraseFinds(path[..|path| - 1], g, x);
      Cut(path, |path| - 1);
    }
  }

  /** Breadcrumbs change only by the group node entering them. */
  lemma {:induction false} RegroupPath(nodes: Nodes, after: Nodes, p: NodeId, half: nat, g: NodeId, group: Node,
                                       n: NodeId)
    requires Regrouped(nodes, after, p, half, g, group) && Forest(after) && n in nodes
    ensures Erase(Path(after, n), g) == Path(nodes, n)
    decreases Up(nodes, n)
  {
    RegroupFields(nodes, after, p, half, g, group, n);
    var trail := Path(after, n);
    if nodes[n].parent == None {
      assert trail[..0] == [];
    } else {
      ParentRanks(nodes, n);
      var q := nodes[n].parent.value;
      RegroupPath(nodes, after, p, half, g, group, q);
      assert trail[..|trail| - 1] == Path(after, after[n].parent.value);
      if after[n].parent == Some(g) {
        assert Path(after, g)[..|Path(after, g)| - 1] == Path(after, p);
      }
    }
  }

  /** Ancestry between old nodes is exactly preserved. */
  lemma {:induction false} RegroupWithin(nodes: Nodes, after: Nodes, p: NodeId, half: nat, g: NodeId, group: Node,
                                         n: NodeId, a: NodeId)
    requires Regrouped(nodes, after, p, half, g, group) && Forest(after) && n in nodes && a in nodes
    ensures Within(after, n, a) <==> Within(nodes, n, a)
    ensures Within(after, g, a) <==> Within(nodes, p, a)
  {
    RegroupPath(nodes, after, p, half, g, group, n);
    RegroupPath(nodes, after, p, half, g, group, p);
    EraseFinds(Path(after, n), g, a);
    EraseFinds(Path(after, p), g, a);
  }
}
