/** The service as it runs: a shared database object whose rows the operations update in
    place, proved step by step against the specification functions. */
module CortexService {
  import opened Basics
  import opened CortexModel
  import opened CortexMoves
  import opened CortexState
  import opened CortexInvariant
  import opened CortexRuns
  import opened CortexScope
  import opened CortexEffects

  class Database {
    var nodes: Nodes
    var trees: map<TreeId, Tree>
    var nextNode: NodeId
    var nextTree: TreeId
    ghost var tally: map<NodeId, Tally>

    ghost function State(): Db
      reads this
    {
      Db(nodes, trees, nextNode, nextTree, tally)
    }

    constructor ()
      ensures State() == EMPTY.db
    {
      nodes, trees, nextNode, nextTree, tally := map[], map[], 0, 0, map[];
    }
  }

  class CortexService {
    const db: Database
    const scope: Option<NodeId>
    const policy: Policy
    var cache: set<NodeId>

    ghost function View(): Service
      reads this
    {
      Service(scope, policy, cache)
    }

    ghost predicate Valid()
      reads this, db
    {
      Inv(db.State()) && Sound(db.State()) && CacheOk(db.nodes, View())
    }

    constructor (db: Database, scope: Option<NodeId>, policy: Policy)
      requires Inv(db.State())
      ensures this.db == db && View() == NewService(scope, policy) && Valid()
    {
      this.db, this.scope, this.policy := db, scope, policy;
      this.cache := if scope.Some? then {scope.value} else {};
      new;
      InvSound(db.State());
    }

    /** `_get_node`: cache first, then the ancestry query, then the policy. */
    method FetchNode(n: NodeId) returns (r: Result<Node>)
      requires Forest(db.nodes)
      modifies this`cache
      ensures (View(), r) == GetNode(db.nodes, old(View()), n)
    {
      if n !in db.nodes {
        return Err(NodeNotFound);
      }
      if scope.Some? && n != scope.value {
        var isDescendant := n in cache;
        if !isDescendant {
          isDescendant := Within(db.nodes, n, scope.value);
          if isDescendant {
            cache := cache + {n};
          }
        }
        if !isDescendant && !policy.canReadOutside && policy.errorOnViolation {
          return Err(ScopeViolation);
        }
      }
      return Ok(db.nodes[n]);
    }

    /** `_create_node`. */
    method InsertNode(node: Node) returns (id: NodeId)
      modifies db
      ensures db.State() == CreateNode(old(db.State()), node) && id == old(db.nextNode)
    {
      id := db.nextNode;
      db.nodes := db.nodes[id := node];
      db.tally := db.tally[id := UNTOUCHED];
      db.nextNode := id + 1;
    }

    /** The first loop of `_schedule_reclustering`: the first half goes under the group. */
    method AdoptFirstHalf(kids: seq<NodeId>, half: nat, g: NodeId)
      requires half <= |kids| && Distinct(kids) && g !in kids
      requires forall i :: 0 <= i < |kids| ==> kids[i] in db.nodes
      modifies db`nodes
      ensures db.nodes.Keys == old(db.nodes).Keys
      ensures forall j :: 0 <= j < half ==> db.nodes[kids[j]] == old(db.nodes)[kids[j]].(parent := Some(g), order := j)
      ensures forall x :: x in db.nodes && x !in kids[..half] ==> db.nodes[x] == old(db.nodes)[x]
    {
      for i := 0 to half
        invariant db.nodes.Keys == old(db.nodes).Keys
        invariant forall j :: 0 <= j < i ==> db.nodes[kids[j]] == old(db.nodes)[kids[j]].(parent := Some(g), order := j)
        invariant forall j :: i <= j < |kids| ==> db.nodes[kids[j]] == old(db.nodes)[kids[j]]
        invariant forall x :: x in db.nodes && x !in kids[..i] ==> db.nodes[x] == old(db.nodes)[x]
      {
        assert kids[..i + 1] == kids[..i] + [kids[i]];
        db.nodes := db.nodes[kids[i] := db.nodes[kids[i]].(parent := Some(g), order := i)];
      }
    }

    /** Its second loop: the others are numbered from 1, behind the group. */
    method RenumberSecondHalf(kids: seq<NodeId>, half: nat)
      requires half <= |kids| && Distinct(kids)
      requires forall i :: 0 <= i < |kids| ==> kids[i] in db.nodes
      modifies db`nodes
      ensures db.nodes.Keys == old(db.nodes).Keys
      ensures forall j :: half <= j < |kids| ==> db.nodes[kids[j]] == old(db.nodes)[kids[j]].(order := j - half + 1)
      ensures forall x :: x in db.nodes && x !in kids[half..] ==> db.nodes[x] == old(db.nodes)[x]
    {
      for i := half to |kids|
        invariant db.nodes.Keys == old(db.nodes).Keys
        invariant forall j :: half <= j < i ==> db.nodes[kids[j]] == old(db.nodes)[kids[j]].(order := j - half + 1)
        invariant forall j :: i <= j < |kids| ==> db.nodes[kids[j]] == old(db.nodes)[kids[j]]
        invariant forall x :: x in db.nodes && x !in kids[half..i] ==> db.nodes[x] == old(db.nodes)[x]
      {
        assert kids[half..i + 1] == kids[half..i] + [kids[i]];
        db.nodes := db.nodes[kids[i] := db.nodes[kids[i]].(order := i - half + 1)];
      }
      assert kids[half..|kids|] == kids[half..];
    }

    /** Both loops on the freshly inserted group. */
    method MoveChildren(kids: seq<NodeId>, half: nat, g: NodeId, ghost before: Nodes, ghost group: Node)
      requires half <= |kids| && Distinct(kids) && g !in before && db.nodes == before[g := group]
      requires forall i :: 0 <= i < |kids| ==> kids[i] in before
      modifies db`nodes
      ensures db.nodes == GroupedNodes(before, kids, half, g, group)
    {
      assert g !in kids;
      AdoptFirstHalf(kids, half, g);
      ghost var mid := db.nodes;
      RenumberSecondHalf(kids, half);
      HalvesAreGrouped(before, mid, db.nodes, kids, half, g, group);
    }

    /** `_schedule_reclustering`. */
    method ScheduleReclustering(p: NodeId, t: TreeId)
      requires Valid() && p in db.nodes && t == db.nodes[p].tree
      requires GetNode(db.nodes, View(), p) == (View(), Ok(db.nodes[p]))
      modifies db, this`cache
      ensures db.State() == Recluster(old(db.State()), p)
      ensures View() == old(View())
    {
      ghost var before := db.State();
      var kids := Children(db.nodes, p);
      if |kids| < db.trees[t].maxChildren {
        return;
      }
      var half := |kids| / 2;
      if half == 0 {
        return; // indexing the empty first half raises; the handler swallows it
      }
      var parent := FetchNode(p);
      var group := Node(t, Some(p), db.nodes[kids[0]].kind,
                        Some("Grouped " + Digits(half) + " nodes for viewport efficiency"), None, Complete,
                        parent.value.depth + 1, 0);
      InsertGroup(p, t, kids, half, group);
    }

    /** The group row, both loops and the count. */
    method InsertGroup(p: NodeId, t: TreeId, kids: seq<NodeId>, half: nat, group: Node)
      requires half <= |kids| && kids == Children(db.nodes, p) && t in db.trees && db.nextNode !in db.nodes
      modifies db
      ensures db.State() == (var before := old(db.State());
                             Db(GroupedNodes(before.nodes, kids, half, before.nextNode, group),
                                before.trees[t := before.trees[t].(total := before.trees[t].total + 1)],
                                before.nextNode + 1, before.nextTree,
                                GroupedTally(before.tally, p, kids[..half], before.nextNode)))
    {
      ghost var before := db.State();
      var g := InsertNode(group);
      ListedDistinct(before.nodes, p);
      MoveChildren(kids, half, g, before.nodes, group);
      db.trees := db.trees[t := db.trees[t].(total := db.trees[t].total + 1)];
      db.tally := GroupedTally(before.tally, p, kids[..half], g);
    }

    /** The tail of `write`: the new row and the tree record. */
    method AppendChild(t: TreeId, leaf: Node) returns (id: NodeId)
      requires t in db.trees && leaf.parent.Some? && leaf.parent.value in db.tally
      modifies db
      ensures db.State() == AddLeaf(old(db.State()), t, leaf) && id == old(db.nextNode)
    {
      id := InsertNode(leaf);
      db.trees := db.trees[t := db.trees[t].(total := db.trees[t].total + 1, cursor := id)];
      ghost var p := leaf.parent.value;
      db.tally := db.tally[p := db.tally[p].(writes := db.tally[p].writes + 1)];
    }

    /** `write` once the parent row is loaded. */
    method WriteBelow(parent: Node, req: Request) returns (r: Result<NodeId>)
      requires Valid() && req.parent in db.nodes && db.nodes[req.parent] == parent
      requires GetNode(db.nodes, View(), req.parent) == (View(), Ok(parent))
      modifies db, this`cache
      ensures (db.State(), r) == WriteUnder(old(db.State()), req)
      ensures View() == old(View())
    {
      if !Truthy(parent.summary) {
        return Err(NoSummary);
      }
      ghost var before := db.State();
      RoomyRecords(before, req.parent);
      var order := if req.order.Some? then req.order.value else NextOrder(db.nodes, req.parent);
      if |Children(db.nodes, req.parent)| >= db.trees[parent.tree].maxChildren {
        ScheduleReclustering(req.parent, parent.tree);
      }
      assert db.State() == MakeRoom(before, req.parent);
      if req.kind == None || req.status == None {
        return Err(BadEnum);
      }
      var id := AppendChild(parent.tree, Leaf(parent, req, order));
      return Ok(id);
    }

    /** `write`. */
    method WriteNode(req: Request) returns (r: Result<NodeId>)
      requires Valid()
      modifies db, this`cache
      ensures Step(db.State(), View(), r) == Write(old(db.State()), old(View()), req)
      ensures r.Ok? ==>
                && r.value !in old(db.nodes) && r.value in db.nodes && db.nodes[r.value].parent == Some(req.parent)
                && Some(db.nodes[r.value].kind) == req.kind && Some(db.nodes[r.value].status) == req.status
                && db.nodes[r.value].summary == req.summary && db.nodes[r.value].content == req.content
      ensures Valid()
    {
      if Write(db.State(), View(), req).result.Ok? {
        WrittenRow(db.State(), req);
      }
      WriteStaysValid(db.State(), View(), req);
      CacheAgrees(db.nodes, View(), req.parent);
      if GetNode(db.nodes, View(), req.parent).1.Ok? {
        GetNodeAgain(db.nodes, View(), req.parent);
      }
      var parent := FetchNode(req.parent);
      if parent.Err? {
        return Err(parent.error);
      }
      r := WriteBelow(parent.value, req);
    }

    /** `read`, without the paging of the returned text. */
    method ReadNode(n: NodeId) returns (r: Result<Node>)
      requires Valid()
      modifies db, this`cache
      ensures Step(db.State(), View(), r) == Read(old(db.State()), old(View()), n)
      ensures Valid()
    {
      ghost var before, view := db.State(), View();
      ReadKeeps(before, view, n);
      InvSound(Read(before, view, n).db);
      CacheAgrees(before.nodes, view, n);
      var node := FetchNode(n);
      if node.Err? {
        return Err(node.error);
      }
      if node.value.status == Pending {
        db.nodes := db.nodes[n := node.value.(status := Active)];
      }
      MoveCursor(node.value.tree, n);
      assert db.nodes == before.nodes[n := Touched(before.nodes[n])];
      CacheSurvives(before, Read(before, view, n).db, View());
      return Ok(db.nodes[n]);
    }

    /** The tree record remembers where the service is. */
    method MoveCursor(t: TreeId, n: NodeId)
      requires t in db.trees
      modifies db`trees
      ensures db.State() == SetCursor(old(db.State()), t, n)
    {
      db.trees := db.trees[t := db.trees[t].(cursor := n)];
    }

    /** `navigate`. */
    method NavigateTo(n: NodeId) returns (r: Result<Viewport>)
      requires Valid()
      modifies db, this`cache
      ensures Step(db.State(), View(), r) == Navigate(old(db.State()), old(View()), n)
      ensures Valid()
    {
      NavigateStaysValid(db.State(), View(), n);
      var node := FetchNode(n);
      if node.Err? {
        return Err(node.error);
      }
      MoveCursor(node.value.tree, n);
      r := LoadViewport(n);
    }

    /** The children, the parent if there is one, and the breadcrumb. */
    method LoadViewport(n: NodeId) returns (r: Result<Viewport>)
      requires Forest(db.nodes) && n in db.nodes
      modifies this`cache
      ensures var view := Viewport(n, Children(db.nodes, n), db.nodes[n].parent, Path(db.nodes, n));
              match db.nodes[n].parent
              case None => View() == old(View()) && r == Ok(view)
              case Some(p) =>
                var (svc, above) := GetNode(db.nodes, old(View()), p);
                View() == svc && r == if above.Err? then Err(above.error) else Ok(view)
    {
      var children := Children(db.nodes, n);
      if db.nodes[n].parent.Some? {
        var parent := FetchNode(db.nodes[n].parent.value);
        if parent.Err? {
          return Err(parent.error);
        }
      }
      return Ok(Viewport(n, children, db.nodes[n].parent, Path(db.nodes, n)));
    }

    /** `recurse`, up to the creation of the child run. */
    method RecurseInto(n: NodeId, payload: string, task: string) returns (r: Result<NodeId>)
      requires Valid()
      modifies db, this`cache
      ensures Step(db.State(), View(), r) == Recurse(old(db.State()), old(View()), n, payload, task)
      ensures Valid()
    {
      CacheAgrees(db.nodes, View(), n);
      var node := FetchNode(n);
      if node.Err? {
        return Err(node.error);
      }
      r := WriteNode(Request(n, Some(Task), Some(Pending), Some(payload), Some(Prefix(task, 500)), None));
    }

    /** `checkpoint`. */
    method SaveCheckpoint(t: TreeId, payload: string, progress: string) returns (r: Result<NodeId>)
      requires Valid()
      modifies db, this`cache
      ensures Step(db.State(), View(), r) == WriteCheckpoint(old(db.State()), old(View()), t, payload, progress)
      ensures Valid()
    {
      if t !in db.trees {
        return Err(TreeNotFound);
      }
      r := WriteNode(Request(db.trees[t].cursor, Some(Checkpoint), Some(Complete), Some(payload),
                             Some(Prefix(progress, 500)), None));
    }

    /** `suspend_tree`. */
    method SuspendTree(t: TreeId, payload: string) returns (r: Result<NodeId>)
      requires Valid()
      modifies db, this`cache
      ensures Step(db.State(), View(), r) == Suspend(old(db.State()), old(View()), t, payload)
      ensures r.Ok? ==> t in db.trees && db.trees[t].status == TreeSuspended && db.trees[t].cursor == r.value
      ensures Valid()
    {
      if Suspend(db.State(), View(), t, payload).result.Ok? {
        SuspendEffect(db.State(), View(), t, payload);
        CheckpointRow(db.State(), View(), t, payload, SUSPENDED);
      }
      r := SaveCheckpoint(t, payload, SUSPENDED);
      if r.Ok? && t in db.trees {
        StatusStaysValid(db.State(), View(), t, TreeSuspended);
        db.trees := db.trees[t := db.trees[t].(status := TreeSuspended)];
      }
    }

    /** `resume_tree`; the second part of the answer is the checkpoint's text before it is parsed. */
    method ResumeTree(t: TreeId) returns (r: Result<(Viewport, Option<string>)>)
      requires Valid()
      modifies db, this`cache
      ensures Step(db.State(), View(), r) == Resume(old(db.State()), old(View()), t)
      ensures t in db.trees && old(db.trees)[t].status in {TreeActive, TreeSuspended} ==>
                db.trees[t].status == TreeActive && r != Err(NotResumable)
      ensures Valid()
    {
      ResumeSucceedsIff(db.State(), View(), t);
      if t !in db.trees {
        return Err(TreeNotFound);
      }
      if db.trees[t].status != TreeActive && db.trees[t].status != TreeSuspended {
        return Err(NotResumable);
      }
      var cursor := db.trees[t].cursor;
      StatusStaysValid(db.State(), View(), t, TreeActive);
      NavigateAnyStatus(db.State(), View(), cursor, t, TreeActive);
      db.trees := db.trees[t := db.trees[t].(status := TreeActive)];
      var view := NavigateTo(cursor);
      if view.Err? {
        return Err(view.error);
      }
      return Ok((view.value, LastCheckpoint(db.nodes, cursor)));
    }

    /** `create_tree`. */
    method PlantTree(description: string, maxChildren: int) returns (t: TreeId)
      requires Valid()
      modifies db
      ensures db.State() == CreateTree(old(db.State()), description, maxChildren) && t == old(db.nextTree)
      ensures Valid()
    {
      PlantStaysValid(db.State(), View(), description, maxChildren);
      t := db.nextTree;
      var anchors := AnchorNodes(t, db.nextNode);
      var r, output := InsertFour(TaskRoot(t, description), anchors.0, anchors.1, anchors.2);
      RecordTree(t, Tree(description, r, output, r, 4, maxChildren, TreeActive));
    }

    method RecordTree(t: TreeId, tree: Tree)
      modifies db`trees, db`nextTree
      ensures db.trees == old(db.trees)[t := tree] && db.nextTree == t + 1
    {
      db.trees := db.trees[t := tree];
      db.nextTree := t + 1;
    }

    /** The four `_create_node` calls of `create_tree`. */
    method InsertFour(a: Node, b: Node, c: Node, d: Node) returns (first: NodeId, last: NodeId)
      modifies db
      ensures first == old(db.nextNode) && last == first + 3 && db.nextNode == first + 4
      ensures db.nodes == old(db.nodes)[first := a][first + 1 := b][first + 2 := c][first + 3 := d]
      ensures db.trees == old(db.trees) && db.nextTree == old(db.nextTree)
      ensures db.tally == old(db.tally)[first := Tally(0, 0, 3, 0)][first + 1 := UNTOUCHED][first + 2 := UNTOUCHED]
                                       [first + 3 := UNTOUCHED]
    {
      FourRows(db.State(), a, b, c, d, Tally(0, 0, 3, 0));
      first := InsertNode(a);
      var second := InsertNode(b);
      var third := InsertNode(c);
      last := InsertNode(d);
      db.tally := db.tally[first := Tally(0, 0, 3, 0)];
    }

    /** `_dfs_collect`: appends the sections below n to the list; raises as soon as it meets a
        node outside the scope, which can only be the node it starts from. */
    method DfsCollect(n: NodeId, sections: seq<string>) returns (r: Result<seq<string>>)
      requires Forest(db.nodes) && CacheOk(db.nodes, View())
      modifies this`cache
      ensures CacheOk(db.nodes, View())
      ensures n !in db.nodes ==> r == Err(NodeNotFound)
      ensures n in db.nodes && (Inside(db.nodes, scope, n) || !Confining(policy)) ==>
                r == Ok(sections + Sections(db.nodes, n))
      ensures n in db.nodes && !Inside(db.nodes, scope, n) && Confining(policy) ==> r == Err(ScopeViolation)
      ensures View() == Walk(db.nodes, old(View()), n)
      decreases if n in db.nodes then Down(db.nodes, n) else 0
    {
      ghost var view := View();
      CacheAgrees(db.nodes, view, n);
      var node := FetchNode(n);
      if node.Err? {
        return Err(node.error);
      }
      WalkBegin(db.nodes, view, n);
      var found := sections;
      if node.value.status == Complete && Truthy(node.value.content) {
        found := found + [node.value.content.value];
      }
      ghost var nodes := db.nodes;
      var kids := Children(db.nodes, n);
      SectionsBegin(nodes, n);
      for i := 0 to |kids|
        invariant db.nodes == nodes && CacheOk(nodes, View())
        invariant found == sections + SectionsThrough(nodes, n, i)
        invariant View() == WalkThrough(nodes, view, n, i)
      {
        VisitChild(nodes, scope, n, i);
        WalkStep(nodes, view, n, i);
        var more := DfsCollect(kids[i], found);
        if more.Err? {
          return more;
        }
        found := more.value;
      }
      SectionsEnd(nodes, n);
      WalkEnd(nodes, view, n);
      return Ok(found);
    }

    /** `assemble_output`; `bridges` is what the language model answered, if it was asked. */
    method AssembleOutput(t: TreeId, bridges: seq<string>) returns (r: Result<string>)
      requires Valid()
      modifies this`cache
      ensures Valid() && (db.State(), View()) == Apply(db.State(), old(View()), DoAssemble(0, t))
      ensures t !in db.trees ==> r == Err(TreeNotFound)
      ensures r.Ok? ==>
                && t in db.trees && db.trees[t].outputRoot in db.nodes
                && Shows(r.value, Sections(db.nodes, db.trees[t].outputRoot), bridges)
      ensures t in db.trees ==>
                var root := db.trees[t].outputRoot;
                && root in db.nodes
                && r == if Inside(db.nodes, scope, root) || !Confining(policy)
                        then Ok(Assembled(Sections(db.nodes, root), bridges)) else Err(ScopeViolation)
    {
      if t !in db.trees {
        return Err(TreeNotFound);
      }
      assert TreeOk(db.State(), t);
      var collected := DfsCollect(db.trees[t].outputRoot, []);
      if collected.Err? {
        return Err(collected.error);
      }
      var sections := collected.value;
      assert sections == [] + Sections(db.nodes, db.trees[t].outputRoot) == Sections(db.nodes, db.trees[t].outputRoot);
      AssembledReads(sections, bridges);
      if sections == [] {
        return Ok("");
      }
      var text := WeaveBridges(sections, bridges);
      return Ok(text);
    }
  }

  /** One database and any number of services on it: what they do, one call after the other, is a
      run of the model. */
  class Host {
    const db: Database
    var services: seq<CortexService>

    ghost predicate Valid()
      reads this, db, services
    {
      && Inv(db.State())
      && (forall i :: 0 <= i < |services| ==> services[i].db == db && services[i].Valid())
      && (forall i, j :: 0 <= i < j < |services| ==> services[i] != services[j])
    }

    ghost function Now(): World
      reads this, db, services
    {
      World(db.State(), Views(services))
    }

    constructor ()
      ensures Valid() && Now() == EMPTY && fresh(db)
    {
      db := new Database();
      services := [];
      new;
      EmptyInv();
    }

    /** A new service for the same database. */
    method OpenService(scope: Option<NodeId>, policy: Policy)
      requires Valid()
      modifies this`services
      ensures forall s :: s in services ==> s in old(services) || fresh(s)
      ensures Valid() && Sound(old(Now()).db) && Now() == Act(old(Now()), Open(scope, policy))
    {
      InvSound(db.State());
      var service := new CortexService(db, scope, policy);
      services := services + [service];
    }

    /** Whatever is called in whatever order: the result is that of the run. */
    method PerformAll(actions: seq<Action>)
      requires Valid()
      modifies this`services, db, services
      ensures Valid() && Inv(old(Now()).db) && Now() == Run(old(Now()), actions)
    {
      for i := 0 to |actions|
        invariant Valid() && Run(Now(), actions[i..]) == Run(old(Now()), actions)
        invariant forall s :: s in services ==> s in old(services) || fresh(s)
      {
        InvSound(db.State());
        RunStep(Now(), actions[i], actions[i + 1..], actions[i..]);
        assert forall k :: 0 <= k < |services| ==> services[k] in old(services) || fresh(services[k]);
        Perform(actions[i]);
      }
    }

    /** One call of a service, or a new service. */
    method Perform(a: Action)
      requires Valid()
      modifies this`services, db, services
      ensures forall s :: s in services ==> s in old(services) || fresh(s)
      ensures Valid() && Sound(old(Now()).db) && Now() == Act(old(Now()), a)
    {
      InvSound(db.State());
      match a {
        case Open(scope, policy) => OpenService(scope, policy);
        case DoCreate(description, maxChildren) => CreateForAll(description, maxChildren);
        case _ =>
          if a.svc < |services| {
            CallOne(a);
          }
      }
    }

    method CallOne(a: Action)
      requires Valid() && !a.Open? && !a.DoCreate? && a.svc < |services|
      modifies db, services
      ensures Valid() && Sound(old(Now()).db) && Now() == Act(old(Now()), a)
    {
      ghost var before := Now();
      InvSound(before.db);
      WorldIsOk(before);
      ActKeepsWorld(before, a);
      Call(services[a.svc], a);
      ViewsChange(before.services, a.svc);
      WorldWasOk(Act(before, a));
    }

    /** `create_tree` is the same for every service. */
    method CreateForAll(description: string, maxChildren: int)
      requires Valid()
      modifies db
      ensures Valid() && Sound(old(Now()).db) && Now() == Act(old(Now()), DoCreate(description, maxChildren))
    {
      ghost var before := Now();
      InvSound(before.db);
      WorldIsOk(before);
      ActKeepsWorld(before, DoCreate(description, maxChildren));
      var service := new CortexService(db, None, CHILD_RECURSION);
      var _ := service.PlantTree(description, maxChildren);
      assert Views(services) == before.services;
      WorldWasOk(Act(before, DoCreate(description, maxChildren)));
    }

    lemma {:induction false} ViewsChange(views: seq<Service>, i: nat)
      requires |views| == |services| && i < |services|
      requires forall j :: 0 <= j < |services| && j != i ==> services[j].View() == views[j]
      ensures Views(services) == views[i := services[i].View()]
    {
    }

    lemma {:induction false} WorldIsOk(w: World)
      requires Valid() && w == Now()
      ensures WorldOk(w)
    {
      assert forall i :: 0 <= i < |services| ==> w.services[i] == services[i].View();
    }

    lemma {:induction false} WorldWasOk(w: World)
      requires WorldOk(w) && w == Now()
      requires forall i :: 0 <= i < |services| ==> services[i].db == db
      requires forall i, j :: 0 <= i < j < |services| ==> services[i] != services[j]
      ensures Valid()
    {
      InvSound(w.db);
      assert forall i :: 0 <= i < |services| ==> w.services[i] == services[i].View();
    }
  }

  /** One call of a service. */
  method Call(s: CortexService, a: Action)
    requires s.Valid() && !a.Open? && !a.DoCreate?
    modifies s.db, s`cache
    ensures s.Valid() && Sound(old(s.db.State()))
    ensures (s.db.State(), s.View()) == Apply(old(s.db.State()), old(s.View()), a)
  {
    match a
    case DoWrite(_, req) => var _ := s.WriteNode(req);
    case DoRead(_, n) => var _ := s.ReadNode(n);
    case DoNavigate(_, n) => var _ := s.NavigateTo(n);
    case DoRecurse(_, n, payload, task) => var _ := s.RecurseInto(n, payload, task);
    case DoCheckpoint(_, t, payload, progress) => var _ := s.SaveCheckpoint(t, payload, progress);
    case DoSuspend(_, t, payload) => var _ := s.SuspendTree(t, payload);
    case DoResume(_, t) => var _ := s.ResumeTree(t);
    case DoAssemble(_, t) => var _ := s.AssembleOutput(t, []);
  }

  ghost function Views(services: seq<CortexService>): seq<Service>
    reads services
  {
    seq(|services|, i requires 0 <= i < |services| reads services => services[i].View())
  }

  /** The coherence pass of `assemble_output` and its fall-back. */
  method WeaveBridges(sections: seq<string>, bridges: seq<string>) returns (text: string)
    ensures text == Assembled(sections, bridges) && Shows(text, sections, bridges)
  {
    AssembledReads(sections, bridges);
    if |sections| > 1 && bridges != [] && |bridges| >= |sections| - 1 {
      var assembled := Interleave(sections, bridges);
      return Join("\n\n", assembled);
    }
    return Join("\n\n", sections);
  }

  /** Its loop. */
  method Interleave(sections: seq<string>, bridges: seq<string>) returns (assembled: seq<string>)
    ensures assembled == Interleaved(sections, bridges)
  {
    assembled := [];
    for i := 0 to |sections|
      invariant assembled == Interleaved(sections[..i], bridges)
    {
      InterleavedTake(sections, bridges, i);
      assembled := assembled + [sections[i]];
      if i < |bridges| {
        assembled := assembled + [bridges[i]];
      }
    }
    assert sections[..|sections|] == sections;
  }

  /** Sections with a bridge behind each while bridges last. */
  function Interleaved(sections: seq<string>, bridges: seq<string>): seq<string> {
    if sections == [] then []
    else if bridges == [] then sections
    else [sections[0], bridges[0]] + Interleaved(sections[1..], bridges[1..])
  }

  /** What `assemble_output` prints for these sections and these bridge paragraphs. */
  function Assembled(sections: seq<string>, bridges: seq<string>): string {
    if |sections| > 1 && bridges != [] && |bridges| >= |sections| - 1
    then Join("\n\n", Interleaved(sections, bridges))
    else Join("\n\n", sections)
  }

  /** Bridges stand between consecutive sections; but whenever more than the requested
      |sections| - 1 arrive, one of them trails behind the last section. */
  lemma {:induction false} InterleavedShape(sections: seq<string>, bridges: seq<string>)
    requires sections != [] && |bridges| >= |sections| - 1
    ensures var parts := Interleaved(sections, bridges);
            && |parts| == 2 * |sections| - (if |bridges| == |sections| - 1 then 1 else 0)
            && (forall i :: 0 <= i < |sections| ==> parts[2 * i] == sections[i])
            && (forall i :: 0 <= i < |sections| && i < |bridges| ==> parts[2 * i + 1] == bridges[i])
  {
    if |sections| > 1 {
      InterleavedShape(sections[1..], bridges[1..]);
      var parts, rest := Interleaved(sections, bridges), Interleaved(sections[1..], bridges[1..]);
      forall i | 0 < i < |sections| ensures parts[2 * i] == sections[i] {
        assert parts[2 * i] == rest[2 * (i - 1)];
      }
      forall i | 0 < i < |sections| && i < |bridges| ensures parts[2 * i + 1] == bridges[i] {
        assert parts[2 * i + 1] == rest[2 * (i - 1) + 1];
      }
    } else if bridges != [] {
      assert Interleaved(sections[1..], bridges[1..]) == [];
    }
  }

  /** The parts of the printed text: the sections in order, with a bridge behind each section but
      perhaps the last if there are several sections and bridges enough. */
  ghost predicate Woven(sections: seq<string>, bridges: seq<string>, parts: seq<string>) {
    if |sections| > 1 && |bridges| >= |sections| - 1 then
      && |parts| == 2 * |sections| - (if |bridges| == |sections| - 1 then 1 else 0)
      && (forall i :: 0 <= i < |sections| ==> parts[2 * i] == sections[i])
      && (forall i :: 0 <= i < |sections| && 2 * i + 1 < |parts| ==> parts[2 * i + 1] == bridges[i])
    else parts == sections
  }

  /** What is printed: the text holds these parts, blank lines between them, and nothing else. */
  lemma {:induction false} AssembledReads(sections: seq<string>, bridges: seq<string>)
    ensures Shows(Assembled(sections, bridges), sections, bridges)
  {
    var parts := sections;
    if |sections| > 1 && |bridges| >= |sections| - 1 {
      parts := Interleaved(sections, bridges);
      InterleavedShape(sections, bridges);
    }
    JoinLaysOut("\n\n", parts);
    assert Woven(sections, bridges, parts);
  }

  ghost predicate Shows(text: string, sections: seq<string>, bridges: seq<string>) {
    exists parts :: Woven(sections, bridges, parts) && LaidOut(text, "\n\n", parts)
  }

  lemma {:induction false} InterleavedTake(sections: seq<string>, bridges: seq<string>, i: nat)
    requires i < |sections|
    ensures Interleaved(sections[..i + 1], bridges) == Interleaved(sections[..i], bridges)
         + if i < |bridges| then [sections[i], bridges[i]] else [sections[i]]
  {
    assert sections[..i + 1] == sections[..i] + [sections[i]];
    if bridges != [] && i > 0 {
      InterleavedTake(sections[1..], bridges[1..], i - 1);
      assert sections[..i + 1][1..] == sections[1..][..i] && sections[..i][1..] == sections[1..][..i - 1];
    } else if bridges != [] {
      assert sections[..1][1..] == [];
      assert Interleaved(sections[..1], bridges) == [sections[0], bridges[0]] + [];
    }
  }

  /** What the loop over the children needs to know about the next child. */
  lemma {:induction false} VisitChild(nodes: Nodes, scope: Option<NodeId>, n: NodeId, i: nat)
    requires Forest(nodes) && n in nodes && i < |Children(nodes, n)|
    ensures var k := Children(nodes, n)[i];
            && k in nodes && Down(nodes, k) < Down(nodes, n)
            && (Inside(nodes, scope, n) ==> Inside(nodes, scope, k))
            && forall sections :: sections + SectionsThrough(nodes, n, i + 1)
                 == (sections + SectionsThrough(nodes, n, i)) + Sections(nodes, k)
  {
    var k := Children(nodes, n)[i];
    ParentRanks(nodes, k);
    InsideBelow(nodes, scope, n, k);
    SectionsStep(nodes, n, i);
  }

  /** The ids seen once n itself and its first i children are done. */
  ghost function SeenThrough(nodes: Nodes, scope: Option<NodeId>, n: NodeId, i: nat): set<NodeId>
    requires Forest(nodes) && n in nodes && i <= |Children(nodes, n)|
  {
    set m | m in nodes && scope.Some? && m != scope.value && Within(nodes, m, scope.value)
            && (m == n || exists j :: 0 <= j < i && Within(nodes, m, Children(nodes, n)[j]))
  }

  /** The service by then. */
  ghost function WalkThrough(nodes: Nodes, svc: Service, n: NodeId, i: nat): Service
    requires Forest(nodes) && n in nodes && i <= |Children(nodes, n)|
  {
    svc.(cache := svc.cache + SeenThrough(nodes, svc.scope, n, i))
  }

  lemma {:induction false} WalkBegin(nodes: Nodes, svc: Service, n: NodeId)
    requires Forest(nodes) && n in nodes && GetNode(nodes, svc, n).1.Ok?
    ensures GetNode(nodes, svc, n).0 == WalkThrough(nodes, svc, n, 0)
  {
  }

  lemma {:induction false} WalkStep(nodes: Nodes, svc: Service, n: NodeId, i: nat)
    requires Forest(nodes) && n in nodes && i < |Children(nodes, n)| && CacheOk(nodes, WalkThrough(nodes, svc, n, i))
    requires Inside(nodes, svc.scope, n) || !Confining(svc.policy)
    ensures Walk(nodes, WalkThrough(nodes, svc, n, i), Children(nodes, n)[i]) == WalkThrough(nodes, svc, n, i + 1)
  {
    VisitChild(nodes, svc.scope, n, i);
    CacheAgrees(nodes, WalkThrough(nodes, svc, n, i), Children(nodes, n)[i]);
    SeenStep(nodes, svc.scope, n, i);
  }

  lemma {:induction false} WalkEnd(nodes: Nodes, svc: Service, n: NodeId)
    requires Forest(nodes) && n in nodes && GetNode(nodes, svc, n).1.Ok?
    ensures WalkThrough(nodes, svc, n, |Children(nodes, n)|) == Walk(nodes, svc, n)
  {
    SeenEnd(nodes, svc.scope, n);
  }

  lemma {:induction false} SeenStep(nodes: Nodes, scope: Option<NodeId>, n: NodeId, i: nat)
    requires Forest(nodes) && n in nodes && i < |Children(nodes, n)|
    ensures SeenThrough(nodes, scope, n, i + 1)
         == SeenThrough(nodes, scope, n, i) + Seen(nodes, scope, Children(nodes, n)[i])
  {
  }

  lemma {:induction false} SeenEnd(nodes: Nodes, scope: Option<NodeId>, n: NodeId)
    requires Forest(nodes) && n in nodes
    ensures SeenThrough(nodes, scope, n, |Children(nodes, n)|) == Seen(nodes, scope, n)
  {
    var kids := Children(nodes, n);
    ChildrenListed(nodes, n);
    forall m | m in nodes
      ensures Within(nodes, m, n) <==> m == n || exists j :: 0 <= j < |kids| && Within(nodes, m, kids[j])
    {
      if m != n && Within(nodes, m, n) {
        var k := Branch(nodes, m, n);
        assert k in kids;
      }
      if j :| 0 <= j < |kids| && Within(nodes, m, kids[j]) {
        assert kids[j] in kids;
        WithinStep(nodes, m, kids[j], n);
      }
    }
  }

  // ------------------------------------------------------------------
  // Collected text
  // ------------------------------------------------------------------

  lemma {:induction false} CollectedHaveText(nodes: Nodes, n: NodeId)
    requires Forest(nodes) && n in nodes
    ensures forall x :: x in Collect(nodes, n) ==> x in nodes && nodes[x].content.Some?
  {
    forall x | x in Collect(nodes, n) ensures x in nodes && nodes[x].content.Some? {
      CollectFinds(nodes, n, x);
    }
  }

  /** The texts the walk from n appends. */
  ghost function Sections(nodes: Nodes, n: NodeId): seq<string>
    requires Forest(nodes) && n in nodes
  {
    CollectedHaveText(nodes, n);
    Texts(nodes, Collect(nodes, n))
  }

  /** What n itself and its first i children contribute. */
  ghost function Through(nodes: Nodes, n: NodeId, i: nat): seq<NodeId>
    requires Forest(nodes) && n in nodes && i <= |Children(nodes, n)|
  {
    Own(nodes, n) + Flatten(Parts(nodes, n, Children(nodes, n)[..i]))
  }

  lemma {:induction false} ThroughStep(nodes: Nodes, n: NodeId, i: nat)
    requires Forest(nodes) && n in nodes && i < |Children(nodes, n)|
    ensures Through(nodes, n, i + 1) == Through(nodes, n, i) + Collect(nodes, Children(nodes, n)[i])
  {
    var kids := Children(nodes, n);
    assert kids[..i + 1] == kids[..i] + [kids[i]];
    PartsAppend(nodes, n, kids[..i], [kids[i]]);
    assert Parts(nodes, n, [kids[i]]) == [Collect(nodes, kids[i])];
    FlattenOne(Collect(nodes, kids[i]));
    Associate(Own(nodes, n), Flatten(Parts(nodes, n, kids[..i])), Collect(nodes, kids[i]));
  }

  lemma {:induction false} Associate(a: seq<NodeId>, b: seq<NodeId>, c: seq<NodeId>)
    ensures a + (b + c) == (a + b) + c
  {
  }

  lemma {:induction false} ThroughAll(nodes: Nodes, n: NodeId)
    requires Forest(nodes) && n in nodes
    ensures Through(nodes, n, |Children(nodes, n)|) == Collect(nodes, n)
    ensures Through(nodes, n, 0) == Own(nodes, n)
  {
    var kids := Children(nodes, n);
    assert kids[..|kids|] == kids;
    assert Parts(nodes, n, kids[..0]) == [];
    assert Own(nodes, n) + [] == Own(nodes, n);
  }

  lemma {:induction false} ThroughHasText(nodes: Nodes, n: NodeId, i: nat)
    requires Forest(nodes) && n in nodes && i <= |Children(nodes, n)|
    ensures forall x :: x in Through(nodes, n, i) ==> x in nodes && nodes[x].content.Some?
    decreases |Children(nodes, n)| - i
  {
    if i == |Children(nodes, n)| {
      ThroughAll(nodes, n);
      CollectedHaveText(nodes, n);
    } else {
      ThroughStep(nodes, n, i);
      ThroughHasText(nodes, n, i + 1);
      assert forall x :: x in Through(nodes, n, i) ==> x in Through(nodes, n, i + 1);
    }
  }

  /** The texts of n itself and of its first i children. */
  ghost function SectionsThrough(nodes: Nodes, n: NodeId, i: nat): seq<string>
    requires Forest(nodes) && n in nodes && i <= |Children(nodes, n)|
  {
    ThroughHasText(nodes, n, i);
    Texts(nodes, Through(nodes, n, i))
  }

  /** The sections are the texts of what the walk collects, in its order. */
  lemma {:induction false} SectionsAre(nodes: Nodes, n: NodeId, i: nat)
    requires Forest(nodes) && n in nodes
    ensures var ids, texts := Collect(nodes, n), Sections(nodes, n);
            |texts| == |ids| && (i < |ids| ==> ids[i] in nodes && nodes[ids[i]].content == Some(texts[i]))
  {
    CollectedHaveText(nodes, n);
    assert i < |Collect(nodes, n)| ==> Collect(nodes, n)[i] in Collect(nodes, n);
  }

  lemma {:induction false} SectionsBegin(nodes: Nodes, n: NodeId)
    requires Forest(nodes) && n in nodes
    ensures SectionsThrough(nodes, n, 0) == if Contributes(nodes[n]) then [nodes[n].content.value] else []
  {
    ThroughAll(nodes, n);
    ThroughHasText(nodes, n, 0);
  }

  lemma {:induction false} SectionsStep(nodes: Nodes, n: NodeId, i: nat)
    requires Forest(nodes) && n in nodes && i < |Children(nodes, n)|
    ensures SectionsThrough(nodes, n, i + 1)
         == SectionsThrough(nodes, n, i) + Sections(nodes, Children(nodes, n)[i])
  {
    ThroughStep(nodes, n, i);
    ThroughHasText(nodes, n, i);
    CollectedHaveText(nodes, Children(nodes, n)[i]);
    TextsAppend(nodes, Through(nodes, n, i), Collect(nodes, Children(nodes, n)[i]));
  }

  lemma {:induction false} SectionsEnd(nodes: Nodes, n: NodeId)
    requires Forest(nodes) && n in nodes
    ensures SectionsThrough(nodes, n, |Children(nodes, n)|) == Sections(nodes, n)
  {
    ThroughAll(nodes, n);
    ThroughHasText(nodes, n, |Children(nodes, n)|);
    CollectedHaveText(nodes, n);
  }

  lemma {:induction false} TextsAppend(nodes: Nodes, a: seq<NodeId>, b: seq<NodeId>)
    requires forall x :: x in a || x in b ==> x in nodes && nodes[x].content.Some?
    ensures forall x :: x in a + b ==> x in nodes && nodes[x].content.Some?
    ensures Texts(nodes, a + b) == Texts(nodes, a) + Texts(nodes, b)
  {
  }

  lemma {:induction false} InsideBelow(nodes: Nodes, scope: Option<NodeId>, n: NodeId, k: NodeId)
    requires Forest(nodes) && n in nodes && k in nodes && nodes[k].parent == Some(n)
    ensures Inside(nodes, scope, n) ==> Inside(nodes, scope, k)
  {
    if scope.Some? && Inside(nodes, scope, n) {
      WithinChild(nodes, k, n, scope.value);
    }
  }

  // ------------------------------------------------------------------
  // Steps
  // ------------------------------------------------------------------

  lemma {:induction false} WriteStaysValid(db: Db, svc: Service, req: Request)
    requires Inv(db) && Sound(db) && CacheOk(db.nodes, svc)
    ensures var step := Write(db, svc, req);
            Inv(step.db) && Sound(step.db) && CacheOk(step.db.nodes, step.svc)
  {
    WriteKeeps(db, svc, req);
    CacheAgrees(db.nodes, svc, req.parent);
    InvSound(Write(db, svc, req).db);
    CacheSurvives(db, Write(db, svc, req).db, Write(db, svc, req).svc);
  }

  lemma {:induction false} NavigateStaysValid(db: Db, svc: Service, n: NodeId)
    requires Inv(db) && Sound(db) && CacheOk(db.nodes, svc)
    ensures var step := Navigate(db, svc, n);
            Inv(step.db) && Sound(step.db) && CacheOk(step.db.nodes, step.svc)
  {
    NavigateKeeps(db, svc, n);
    InvSound(Navigate(db, svc, n).db);
    NavigateKeepsCache(db, svc, n);
  }

  lemma {:induction false} StatusStaysValid(db: Db, svc: Service, t: TreeId, status: TreeStatus)
    requires Inv(db) && CacheOk(db.nodes, svc) && t in db.trees
    ensures var after := SetTreeStatus(db, t, status); Inv(after) && Sound(after) && CacheOk(after.nodes, svc)
  {
    StatusKeeps(db, t, status);
    InvSound(SetTreeStatus(db, t, status));
  }

  /** Navigation and the setting of a tree status commute. */
  lemma {:induction false} NavigateAnyStatus(db: Db, svc: Service, n: NodeId, t: TreeId, status: TreeStatus)
    requires Sound(db) && t in db.trees && Sound(SetTreeStatus(db, t, status))
    ensures var plain, after := Navigate(db, svc, n), Navigate(SetTreeStatus(db, t, status), svc, n);
            && t in plain.db.trees && after.svc == plain.svc && after.result == plain.result
            && after.db == SetTreeStatus(plain.db, t, status)
  {
    if n in db.nodes {
      CursorAnyStatus(db, db.nodes[n].tree, n, t, status);
    }
  }

  lemma {:induction false} CursorAnyStatus(db: Db, u: TreeId, n: NodeId, t: TreeId, status: TreeStatus)
    requires t in db.trees && u in db.trees
    ensures SetCursor(SetTreeStatus(db, t, status), u, n) == SetTreeStatus(SetCursor(db, u, n), t, status)
  {
    var a, b := SetCursor(SetTreeStatus(db, t, status), u, n), SetTreeStatus(SetCursor(db, u, n), t, status);
    assert a.trees == b.trees;
  }

  lemma {:induction false} PlantStaysValid(db: Db, svc: Service, description: string, maxChildren: int)
    requires Inv(db) && CacheOk(db.nodes, svc)
    ensures var after := CreateTree(db, description, maxChildren);
            Inv(after) && Sound(after) && CacheOk(after.nodes, svc)
  {
    CreateTreeKeeps(db, description, maxChildren);
    CacheSurvives(db, CreateTree(db, description, maxChildren), svc);
    InvSound(CreateTree(db, description, maxChildren));
  }

  lemma {:induction false} RoomyRecords(db: Db, p: NodeId)
    requires Inv(db) && p in db.nodes && Truthy(db.nodes[p].summary)
    ensures var roomy := MakeRoom(db, p); roomy.trees.Keys == db.trees.Keys && p in roomy.tally
  {
    ReclusterIs(db, p);
  }

  lemma {:induction false} FourRows(db: Db, a: Node, b: Node, c: Node, d: Node, seeded: Tally)
    ensures var r := db.nextNode;
            var after := CreateNode(CreateNode(CreateNode(CreateNode(db, a), b), c), d);
            && after.nodes == db.nodes[r := a][r + 1 := b][r + 2 := c][r + 3 := d]
            && after.nextNode == r + 4 && after.trees == db.trees && after.nextTree == db.nextTree
            && after.tally[r := seeded]
                 == db.tally[r := seeded][r + 1 := UNTOUCHED][r + 2 := UNTOUCHED][r + 3 := UNTOUCHED]
  {
  }

  /** Once a node was fetched, fetching it again changes nothing and answers the same. */
  lemma {:induction false} GetNodeAgain(nodes: Nodes, svc: Service, n: NodeId)
    requires Forest(nodes) && GetNode(nodes, svc, n).1.Ok?
    ensures GetNode(nodes, GetNode(nodes, svc, n).0, n) == GetNode(nodes, svc, n)
  {
  }

  lemma {:induction false} ListedDistinct(nodes: Nodes, p: NodeId)
    ensures Distinct(Children(nodes, p))
  {
    ChildrenListed(nodes, p);
    var kids := Children(nodes, p);
    forall i, j | 0 <= i < j < |kids| ensures kids[i] != kids[j] {
      assert kids[i] in kids && kids[j] in kids;
      assert Before(nodes, kids[i], kids[j]);
    }
  }

  lemma {:induction false} HalvesAreGrouped(nodes: Nodes, mid: Nodes, now: Nodes, kids: seq<NodeId>, half: nat,
                                            g: NodeId, group: Node)
    requires half <= |kids| && Distinct(kids) && g !in nodes
    requires forall i :: 0 <= i < |kids| ==> kids[i] in nodes
    requires mid.Keys == nodes.Keys + {g} && now.Keys == mid.Keys
    requires forall j :: 0 <= j < half ==> mid[kids[j]] == nodes[kids[j]].(parent := Some(g), order := j)
    requires forall x :: x in mid && x !in kids[..half] ==> mid[x] == if x == g then group else nodes[x]
    requires forall j :: half <= j < |kids| ==> now[kids[j]] == mid[kids[j]].(order := j - half + 1)
    requires forall x :: x in now && x !in kids[half..] ==> now[x] == mid[x]
    ensures now == GroupedNodes(nodes, kids, half, g, group)
  {
    Cut(kids, half);
    forall x | x in now ensures now[x] == GroupedNodes(nodes, kids, half, g, group)[x] {
      if x in kids {
        var i := Index(kids, x);
        if i < half {
          NotInSlice(kids, half, |kids|, i);
        } else {
          NotInSlice(kids, 0, half, i);
        }
      }
    }
  }

  lemma {:induction false} NotInSlice(kids: seq<NodeId>, from: nat, to: nat, i: nat)
    requires Distinct(kids) && from <= to <= |kids| && i < |kids| && (i < from || i >= to)
    ensures kids[i] !in kids[from..to]
    ensures from == 0 ==> kids[i] !in kids[..to]
    ensures to == |kids| ==> kids[i] !in kids[from..]
  {
  }
}
