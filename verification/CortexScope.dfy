/** Scoped services: the descendant cache, write isolation, and where it stops. */
module CortexScope {
  import opened Basics
  import opened CortexModel
  import opened CortexMoves
  import opened CortexState
  import opened CortexInvariant
  import opened CortexGrowth
  import opened CortexRuns
  import opened CortexWrites

  /** Each cached id is the scope root or still lies below it. */
  ghost predicate CacheOk(nodes: Nodes, svc: Service)
    requires Forest(nodes)
  {
    forall id :: id in svc.cache ==>
      svc.scope.Some? && (id == svc.scope.value || (id in nodes && Within(nodes, id, svc.scope.value)))
  }

  /** With such a cache, fetching a node answers exactly as the ancestry query would. */
  lemma {:induction false} CacheAgrees(nodes: Nodes, svc: Service, n: NodeId)
    requires Forest(nodes) && CacheOk(nodes, svc)
    ensures CacheOk(nodes, GetNode(nodes, svc, n).0)
    ensures GetNode(nodes, svc, n).1 ==
            if n !in nodes then Err(NodeNotFound)
            else if Inside(nodes, svc.scope, n) || svc.policy.canReadOutside || !svc.policy.errorOnViolation
            then Ok(nodes[n])
            else Err(ScopeViolation)
    ensures GetNode(nodes, svc, n).0.scope == svc.scope && GetNode(nodes, svc, n).0.policy == svc.policy
  {
  }

  /** Growth by any operation keeps every cache correct. */
  lemma {:induction false} CacheSurvives(db: Db, after: Db, svc: Service)
    requires Evolved(db, after) && CacheOk(db.nodes, svc)
    ensures CacheOk(after.nodes, svc)
  {
    forall id | id in svc.cache && id != svc.scope.value
      ensures id in after.nodes && Within(after.nodes, id, svc.scope.value)
    {
      assert Kept(db, after, id);
    }
  }

  ghost predicate WorldOk(w: World) {
    && Inv(w.db)
    && forall i :: 0 <= i < |w.services| ==> CacheOk(w.db.nodes, w.services[i])
  }

  lemma {:induction false} ApplyKeepsCache(db: Db, svc: Service, a: Action)
    requires Inv(db) && Sound(db) && !a.Open? && !a.DoCreate? && CacheOk(db.nodes, svc)
    ensures CacheOk(db.nodes, Apply(db, svc, a).1)
  {
    match a
    case DoWrite(_, req) => CacheAgrees(db.nodes, svc, req.parent);
    case DoRead(_, n) => CacheAgrees(db.nodes, svc, n);
    case DoNavigate(_, n) => NavigateKeepsCache(db, svc, n);
    case DoRecurse(_, n, _, _) =>
      CacheAgrees(db.nodes, svc, n);
      CacheAgrees(db.nodes, GetNode(db.nodes, svc, n).0, n);
    case DoCheckpoint(_, t, _, _) => if t in db.trees { CacheAgrees(db.nodes, svc, db.trees[t].cursor); }
    case DoSuspend(_, t, _) => if t in db.trees { CacheAgrees(db.nodes, svc, db.trees[t].cursor); }
    case DoResume(_, t) => if t in db.trees { NavigateKeepsCache(db, svc, db.trees[t].cursor); }
    case DoAssemble(_, _) =>
  }

  lemma {:induction false} NavigateKeepsCache(db: Db, svc: Service, n: NodeId)
    requires Inv(db) && Sound(db) && CacheOk(db.nodes, svc)
    ensures CacheOk(db.nodes, Navigate(db, svc, n).svc)
  {
    CacheAgrees(db.nodes, svc, n);
    if n in db.nodes && db.nodes[n].parent.Some? {
      CacheAgrees(db.nodes, GetNode(db.nodes, svc, n).0, db.nodes[n].parent.value);
    }
  }

  lemma {:induction false} ActKeepsWorld(w: World, a: Action)
    requires WorldOk(w) && Sound(w.db)
    ensures WorldOk(Act(w, a))
  {
    ActKeeps(w, a);
    var after := Act(w, a);
    forall i | 0 <= i < |after.services| ensures CacheOk(after.db.nodes, after.services[i]) {
      if i < |w.services| {
        CacheSurvives(w.db, after.db, w.services[i]);
        if !a.Open? && !a.DoCreate? && a.svc == i {
          ApplyKeepsCache(w.db, w.services[i], a);
          CacheSurvives(w.db, after.db, after.services[i]);
        }
      }
    }
  }

  /** In every run every cache agrees with the ancestry query, whoever reclusters. */
  lemma {:induction false} RunKeepsWorld(w: World, actions: seq<Action>)
    requires WorldOk(w)
    ensures WorldOk(Run(w, actions))
    decreases |actions|
  {
    if actions != [] {
      InvSound(w.db);
      ActKeepsWorld(w, actions[0]);
      ActKeeps(w, actions[0]);
      RunKeepsWorld(Act(w, actions[0]), actions[1..]);
    }
  }

  // ------------------------------------------------------------------
  // Write isolation
  // ------------------------------------------------------------------

  /** The policies under which reading outside the scope raises. */
  predicate Confining(policy: Policy) {
    !policy.canReadOutside && policy.errorOnViolation
  }

  /** Writing under p leaves every node outside the subtree of p's ancestors alone. */
  lemma {:induction false} WriteUnderTouches(db: Db, req: Request, n: NodeId)
    requires Inv(db) && req.parent in db.nodes && n in db.nodes && db.nodes[n].parent != Some(req.parent)
    ensures n in WriteUnder(db, req).0.nodes && WriteUnder(db, req).0.nodes[n] == db.nodes[n]
  {
    if Truthy(db.nodes[req.parent].summary) {
      ReclusterIs(db, req.parent);
    }
  }

  /** New nodes appear only below the parent that was written to. */
  lemma {:induction false} WriteUnderAdds(db: Db, req: Request, n: NodeId)
    requires Inv(db) && req.parent in db.nodes && n !in db.nodes && n in WriteUnder(db, req).0.nodes
    ensures WriteUnder(db, req).0.nodes[n].parent == Some(req.parent)
  {
    if Truthy(db.nodes[req.parent].summary) {
      ReclusterIs(db, req.parent);
    }
  }

  /** Under a confining policy no write changes a node outside the subtree, whatever its
      outcome, and every node it creates lies inside. */
  lemma {:induction false} WritesStayInside(db: Db, svc: Service, req: Request, n: NodeId)
    requires Inv(db) && Sound(db) && CacheOk(db.nodes, svc) && Confining(svc.policy)
    ensures Apart(db.nodes, Write(db, svc, req).db.nodes, svc.scope, n)
  {
    WriteKeeps(db, svc, req);
    CacheAgrees(db.nodes, svc, req.parent);
    if GetNode(db.nodes, svc, req.parent).1.Ok? {
      var after := WriteUnder(db, req).0;
      if n in db.nodes && !Inside(db.nodes, svc.scope, n) {
        if db.nodes[n].parent == Some(req.parent) {
          WithinChild(db.nodes, n, req.parent, svc.scope.value);
        }
        WriteUnderTouches(db, req, n);
      }
      if n !in db.nodes && n in after.nodes && svc.scope.Some? {
        WriteUnderAdds(db, req, n);
        assert Kept(db, after, req.parent);
        WithinChild(after.nodes, n, req.parent, svc.scope.value);
      }
    }
  }

  lemma {:induction false} WithinChild(nodes: Nodes, n: NodeId, p: NodeId, a: NodeId)
    requires Forest(nodes) && n in nodes && p in nodes && nodes[n].parent == Some(p) && Within(nodes, p, a)
    ensures Within(nodes, n, a)
  {
    ParentRanks(nodes, n);
  }

  /** With regard to node n nothing happened outside the scope. */
  ghost predicate Apart(nodes: Nodes, after: Nodes, scope: Option<NodeId>, n: NodeId)
    requires Forest(nodes)
  {
    && Forest(after)
    && (n in nodes && !Inside(nodes, scope, n) ==> n in after && after[n] == nodes[n])
    && (n !in nodes && n in after ==> Inside(after, scope, n))
  }

  /** No operation of a confined service changes a node outside its subtree or creates one there. */
  lemma {:induction false} OperationsStayInside(db: Db, svc: Service, a: Action, n: NodeId)
    requires Inv(db) && Sound(db) && CacheOk(db.nodes, svc) && Confining(svc.policy) && !a.Open? && !a.DoCreate?
    ensures Apart(db.nodes, Apply(db, svc, a).0.nodes, svc.scope, n)
  {
    match a
    case DoWrite(_, req) => WritesStayInside(db, svc, req, n);
    case DoRead(_, m) => ReadStaysInside(db, svc, m, n);
    case DoNavigate(_, m) =>
    case DoRecurse(_, m, payload, task) => RecurseStaysInside(db, svc, m, payload, task, n);
    case DoCheckpoint(_, t, payload, progress) => CheckpointStaysInside(db, svc, t, payload, progress, n);
    case DoSuspend(_, t, payload) => SuspendStaysInside(db, svc, t, payload, n);
    case DoResume(_, t) =>
    case DoAssemble(_, _) =>
  }

  lemma {:induction false} ReadStaysInside(db: Db, svc: Service, m: NodeId, n: NodeId)
    requires Inv(db) && Sound(db) && CacheOk(db.nodes, svc) && Confining(svc.policy)
    ensures Apart(db.nodes, Read(db, svc, m).db.nodes, svc.scope, n)
  {
    ReadKeeps(db, svc, m);
    CacheAgrees(db.nodes, svc, m);
  }

  lemma {:induction false} RecurseStaysInside(db: Db, svc: Service, m: NodeId, payload: string, task: string, n: NodeId)
    requires Inv(db) && Sound(db) && CacheOk(db.nodes, svc) && Confining(svc.policy)
    ensures Apart(db.nodes, Recurse(db, svc, m, payload, task).db.nodes, svc.scope, n)
  {
    CacheAgrees(db.nodes, svc, m);
    WritesStayInside(db, GetNode(db.nodes, svc, m).0,
                     Request(m, Some(Task), Some(Pending), Some(payload), Some(Prefix(task, 500)), None), n);
  }

  lemma {:induction false} CheckpointStaysInside(db: Db, svc: Service, t: TreeId, payload: string, progress: string,
                                                 n: NodeId)
    requires Inv(db) && Sound(db) && CacheOk(db.nodes, svc) && Confining(svc.policy)
    ensures Apart(db.nodes, WriteCheckpoint(db, svc, t, payload, progress).db.nodes, svc.scope, n)
  {
    if t in db.trees {
      WritesStayInside(db, svc, Request(db.trees[t].cursor, Some(Checkpoint), Some(Complete), Some(payload),
                                        Some(Prefix(progress, 500)), None), n);
    }
  }

  lemma {:induction false} SuspendStaysInside(db: Db, svc: Service, t: TreeId, payload: string, n: NodeId)
    requires Inv(db) && Sound(db) && CacheOk(db.nodes, svc) && Confining(svc.policy)
    ensures Apart(db.nodes, Suspend(db, svc, t, payload).db.nodes, svc.scope, n)
  {
    CheckpointStaysInside(db, svc, t, payload, SUSPENDED, n);
  }

  /** What lies above a node outside a scope lies outside too, so nothing on its breadcrumb changes. */
  lemma {:induction false} OutsideStaysPut(db: Db, svc: Service, a: Action, n: NodeId)
    requires Inv(db) && Sound(db) && CacheOk(db.nodes, svc) && Confining(svc.policy) && !a.Open? && !a.DoCreate?
    requires n in db.nodes && !Inside(db.nodes, svc.scope, n)
    ensures var after := Apply(db, svc, a).0.nodes;
            Forest(after) && n in after && after[n] == db.nodes[n] && Path(after, n) == Path(db.nodes, n)
    decreases Up(db.nodes, n)
  {
    OperationsStayInside(db, svc, a, n);
    if db.nodes[n].parent.Some? {
      var p := db.nodes[n].parent.value;
      ParentRanks(db.nodes, n);
      if Within(db.nodes, p, svc.scope.value) {
        WithinChild(db.nodes, n, p, svc.scope.value);
      }
      OutsideStaysPut(db, svc, a, p);
    }
  }

  /** The service is confined, to a subtree without n. */
  ghost predicate Elsewhere(nodes: Nodes, scope: Option<NodeId>, policy: Policy, n: NodeId)
    requires Forest(nodes) && n in nodes
  {
    Confining(policy) && !Inside(nodes, scope, n)
  }

  /** Every service that acts in the run, also one opened in its course, is confined to a subtree
      without n. Trees may be created. */
  ghost predicate AllElsewhere(w: World, actions: seq<Action>, n: NodeId)
    requires Forest(w.db.nodes) && n in w.db.nodes
  {
    forall i :: 0 <= i < |actions| ==> ActsElsewhere(w, actions[i], n)
  }

  ghost predicate ActsElsewhere(w: World, a: Action, n: NodeId)
    requires Forest(w.db.nodes) && n in w.db.nodes
  {
    match a
    case Open(scope, policy) => Elsewhere(w.db.nodes, scope, policy, n)
    case DoCreate(_, _) => true
    case _ => a.svc < |w.services| ==> Elsewhere(w.db.nodes, w.services[a.svc].scope, w.services[a.svc].policy, n)
  }

  /** The services of one world are those of another, and perhaps one more that is elsewhere. */
  ghost predicate SameServices(w: World, after: World, n: NodeId)
    requires Forest(w.db.nodes) && n in w.db.nodes
  {
    && |w.services| <= |after.services|
    && (forall i :: 0 <= i < |w.services| ==>
          after.services[i].scope == w.services[i].scope && after.services[i].policy == w.services[i].policy)
    && (forall i :: |w.services| <= i < |after.services| ==>
          Elsewhere(w.db.nodes, after.services[i].scope, after.services[i].policy, n))
  }

  lemma {:induction false} ActElsewhere(w: World, a: Action, n: NodeId)
    requires WorldOk(w) && Sound(w.db) && n in w.db.nodes && ActsElsewhere(w, a, n)
    ensures var after := Act(w, a);
            && Forest(after.db.nodes) && n in after.db.nodes && after.db.nodes[n] == w.db.nodes[n]
            && Path(after.db.nodes, n) == Path(w.db.nodes, n)
            && SameServices(w, after, n)
  {
    if a.DoCreate? {
      CreateStaysApart(w.db, a.description, a.maxChildren, n);
    } else if !a.Open? && a.svc < |w.services| {
      OperationElsewhere(w, a, n);
    }
  }

  lemma {:induction false} OperationElsewhere(w: World, a: Action, n: NodeId)
    requires WorldOk(w) && Sound(w.db) && n in w.db.nodes && ActsElsewhere(w, a, n)
    requires !a.Open? && !a.DoCreate? && a.svc < |w.services|
    ensures var after := Act(w, a);
            && Forest(after.db.nodes) && n in after.db.nodes && after.db.nodes[n] == w.db.nodes[n]
            && Path(after.db.nodes, n) == Path(w.db.nodes, n)
            && SameServices(w, after, n)
  {
    OutsideStaysPut(w.db, w.services[a.svc], a, n);
    ServiceStays(w.db, w.services[a.svc], a);
  }

  /** A new tree leaves every old node where it was. */
  lemma {:induction false} CreateStaysApart(db: Db, description: string, maxChildren: int, n: NodeId)
    requires Inv(db) && n in db.nodes
    ensures var after := CreateTree(db, description, maxChildren).nodes;
            Forest(after) && n in after && after[n] == db.nodes[n] && Path(after, n) == Path(db.nodes, n)
  {
    CreateTreeKeeps(db, description, maxChildren);
    CreateTreePlants(db, description, maxChildren);
    PlantedDepth(db, CreateTree(db, description, maxChildren), db.nextTree, db.nextNode,
                 Tree(description, db.nextNode, db.nextNode + 3, db.nextNode, 4, maxChildren, TreeActive), n);
  }

  lemma {:induction false} FetchKeepsService(nodes: Nodes, svc: Service, n: NodeId)
    requires Forest(nodes)
    ensures GetNode(nodes, svc, n).0.scope == svc.scope && GetNode(nodes, svc, n).0.policy == svc.policy
  {
  }

  /** No operation changes a service's scope or policy. */
  lemma {:induction false} ServiceStays(db: Db, svc: Service, a: Action)
    requires Inv(db) && Sound(db) && !a.Open? && !a.DoCreate?
    ensures Apply(db, svc, a).1.scope == svc.scope && Apply(db, svc, a).1.policy == svc.policy
  {
    match a
    case DoWrite(_, req) => FetchKeepsService(db.nodes, svc, req.parent);
    case DoRead(_, m) => FetchKeepsService(db.nodes, svc, m);
    case DoNavigate(_, m) => NavigateKeepsService(db, svc, m);
    case DoRecurse(_, m, _, _) =>
      FetchKeepsService(db.nodes, svc, m);
      FetchKeepsService(db.nodes, GetNode(db.nodes, svc, m).0, m);
    case DoCheckpoint(_, t, _, _) => if t in db.trees { FetchKeepsService(db.nodes, svc, db.trees[t].cursor); }
    case DoSuspend(_, t, _) => if t in db.trees { FetchKeepsService(db.nodes, svc, db.trees[t].cursor); }
    case DoResume(_, t) => if t in db.trees { NavigateKeepsService(db, svc, db.trees[t].cursor); }
    case DoAssemble(_, _) =>
  }

  lemma {:induction false} NavigateKeepsService(db: Db, svc: Service, n: NodeId)
    requires Sound(db)
    ensures Navigate(db, svc, n).svc.scope == svc.scope && Navigate(db, svc, n).svc.policy == svc.policy
  {
    FetchKeepsService(db.nodes, svc, n);
    if n in db.nodes && db.nodes[n].parent.Some? {
      FetchKeepsService(db.nodes, GetNode(db.nodes, svc, n).0, db.nodes[n].parent.value);
    }
  }

  lemma {:induction false} StillElsewhere(w: World, after: World, actions: seq<Action>, n: NodeId)
    requires actions != [] && Forest(w.db.nodes) && n in w.db.nodes && AllElsewhere(w, actions, n)
    requires Forest(after.db.nodes) && n in after.db.nodes && Path(after.db.nodes, n) == Path(w.db.nodes, n)
    requires SameServices(w, after, n)
    ensures AllElsewhere(after, actions[1..], n)
  {
    forall i | 0 <= i < |actions[1..]| ensures ActsElsewhere(after, actions[1..][i], n) {
      assert actions[1..][i] == actions[i + 1] && ActsElsewhere(w, actions[i + 1], n);
    }
  }

  /** However many confined services interleave, and whatever they do, a node outside all their
      subtrees is at the end what it was, and where it was. */
  lemma {:induction false} RunsStayInside(w: World, actions: seq<Action>, n: NodeId)
    requires WorldOk(w) && n in w.db.nodes && AllElsewhere(w, actions, n)
    ensures var later := Run(w, actions).db.nodes;
            Forest(later) && n in later && later[n] == w.db.nodes[n] && Path(later, n) == Path(w.db.nodes, n)
    decreases |actions|
  {
    if actions != [] {
      InvSound(w.db);
      ActKeeps(w, actions[0]);
      ActKeepsWorld(w, actions[0]);
      assert ActsElsewhere(w, actions[0], n);
      ActElsewhere(w, actions[0], n);
      StillElsewhere(w, Act(w, actions[0]), actions, n);
      RunsStayInside(Act(w, actions[0]), actions[1..], n);
    }
  }

  /** The write flag is never enforced: a well-formed write under any node with a summary
      succeeds exactly when that node may be read. */
  lemma {:induction false} WriteSucceedsIff(db: Db, svc: Service, req: Request)
    requires Inv(db) && Sound(db) && CacheOk(db.nodes, svc)
    requires req.parent in db.nodes && Truthy(db.nodes[req.parent].summary) && req.kind.Some? && req.status.Some?
    ensures Write(db, svc, req).result.Ok? <==>
            Inside(db.nodes, svc.scope, req.parent) || !Confining(svc.policy)
  {
    CacheAgrees(db.nodes, svc, req.parent);
  }

  /** So a child run under its default policy, which forbids writing outside, still adds a
      node to the root of the tree above its scope. */
  lemma {:induction false} ChildRecursionWritesUp() returns (db: Db, svc: Service, req: Request)
    ensures Inv(db) && Sound(db) && CacheOk(db.nodes, svc)
    ensures svc.policy == CHILD_RECURSION && !svc.policy.canWriteOutside
    ensures req.parent in db.nodes && !Inside(db.nodes, svc.scope, req.parent)
    ensures Write(db, svc, req).result.Ok?
  {
    EmptyInv();
    CreateTreeKeeps(EMPTY.db, "t", 12);
    db := CreateTree(EMPTY.db, "t", 12);
    InvSound(db);
    svc := NewService(Some(1), CHILD_RECURSION);
    req := Request(0, Some(Finding), Some(Complete), None, None, None);
    assert db.nodes[0] == TaskRoot(0, "t") && Prefix("t", 500) == "t";
    assert Path(db.nodes, 0) == [0];
    WriteSucceedsIff(db, svc, req);
  }

  // ------------------------------------------------------------------
  // Navigation and checkpoints
  // ------------------------------------------------------------------

  /** Navigation also fetches the parent, so it succeeds when both may be read; the cursor moves to
      every node that was fetched, even if the parent then is not. A confined service navigates to
      the proper descendants of its scope root, to that root if it has no parent, and nowhere else. */
  lemma {:induction false} NavigateSucceedsIff(db: Db, svc: Service, n: NodeId)
    requires Inv(db) && Sound(db) && CacheOk(db.nodes, svc) && n in db.nodes
    ensures db.nodes[n].parent.Some? ==> db.nodes[n].parent.value in db.nodes
    ensures Navigate(db, svc, n).result.Ok? <==>
            && MayRead(db.nodes, svc, n)
            && (db.nodes[n].parent.Some? ==> MayRead(db.nodes, svc, db.nodes[n].parent.value))
    ensures Confining(svc.policy) && svc.scope.Some? ==>
              (Navigate(db, svc, n).result.Ok? <==>
                 Within(db.nodes, n, svc.scope.value) && (n != svc.scope.value || db.nodes[n].parent == None))
    ensures Navigate(db, svc, n).db ==
            if MayRead(db.nodes, svc, n) then SetCursor(db, db.nodes[n].tree, n) else db
  {
    CacheAgrees(db.nodes, svc, n);
    if db.nodes[n].parent.Some? {
      var p := db.nodes[n].parent.value;
      ParentRanks(db.nodes, n);
      CacheAgrees(db.nodes, GetNode(db.nodes, svc, n).0, p);
      if svc.scope == Some(n) && Within(db.nodes, p, n) {
        WithinRanks(db.nodes, p, n);
      }
    }
  }

  ghost predicate MayRead(nodes: Nodes, svc: Service, n: NodeId)
    requires Forest(nodes) && n in nodes
  {
    Inside(nodes, svc.scope, n) || !Confining(svc.policy)
  }

  /** A checkpoint is written below the cursor, so it needs the cursor node's summary, and a
      confined service can write it only while the cursor lies inside. */
  lemma {:induction false} CheckpointSucceedsIff(db: Db, svc: Service, t: TreeId, payload: string, progress: string)
    requires Inv(db) && Sound(db) && CacheOk(db.nodes, svc) && t in db.trees
    ensures var cursor := db.trees[t].cursor;
            WriteCheckpoint(db, svc, t, payload, progress).result.Ok? <==>
            Truthy(db.nodes[cursor].summary) && (Inside(db.nodes, svc.scope, cursor) || !Confining(svc.policy))
  {
    CacheAgrees(db.nodes, svc, db.trees[t].cursor);
  }

  /** After a write without summary the next checkpoint of the tree fails, whoever wrote. */
  lemma {:induction false} SilentWriteBlocksCheckpoint(db: Db, svc: Service, req: Request, payload: string,
                                                       progress: string)
    requires Inv(db) && Sound(db) && CacheOk(db.nodes, svc)
    requires !Truthy(req.summary) && Write(db, svc, req).result.Ok?
    ensures Sound(Write(db, svc, req).db)
    ensures var step := Write(db, svc, req);
            WriteCheckpoint(step.db, step.svc, db.nodes[req.parent].tree, payload, progress).result == Err(NoSummary)
  {
    var step := Write(db, svc, req);
    WriteKeeps(db, svc, req);
    InvSound(step.db);
    CacheAgrees(db.nodes, svc, req.parent);
    CacheSurvives(db, step.db, step.svc);
    CacheAgrees(step.db.nodes, step.svc, step.result.value);
    NewChildFetched(db, svc, req);
  }

  /** Who may write below a node may fetch the new child. */
  lemma {:induction false} NewChildFetched(db: Db, svc: Service, req: Request)
    requires Inv(db) && Sound(db) && CacheOk(db.nodes, svc) && Write(db, svc, req).result.Ok?
    ensures var step := Write(db, svc, req);
            && Inv(step.db) && step.result.value in step.db.nodes
            && (Confining(svc.policy) ==> Inside(step.db.nodes, svc.scope, step.result.value))
  {
    WriteKeeps(db, svc, req);
    if Confining(svc.policy) {
      WritesStayInside(db, svc, req, Write(db, svc, req).result.value);
    }
    WriteSplits(db, req);
  }

  /** Suspending leaves the cursor on the fresh checkpoint, which has no children; resuming
      looks for a checkpoint below the cursor and therefore finds none. */
  lemma {:induction false} ResumeFindsNoCheckpoint(db: Db, svc: Service, t: TreeId, payload: string, other: Service)
    requires Inv(db) && Sound(db) && Suspend(db, svc, t, payload).result.Ok?
    ensures Sound(Suspend(db, svc, t, payload).db)
    ensures var resumed := Resume(Suspend(db, svc, t, payload).db, other, t).result;
            resumed.Ok? ==>
              resumed.value.1 == None && resumed.value.0.current == Suspend(db, svc, t, payload).result.value
  {
    SuspendKeeps(db, svc, t, payload);
    var step := Suspend(db, svc, t, payload);
    InvSound(step.db);
    assert TreeOk(db, t);
    var req := Request(db.trees[t].cursor, Some(Checkpoint), Some(Complete), Some(payload),
                       Some(Prefix(SUSPENDED, 500)), None);
    assert WriteUnder(db, req).1.Ok?;
    CheckpointIsLeaf(db, req);
  }

  lemma {:induction false} CheckpointIsLeaf(db: Db, req: Request)
    requires Inv(db) && req.parent in db.nodes && WriteUnder(db, req).1.Ok?
    ensures Kids(WriteUnder(db, req).0.nodes, WriteUnder(db, req).1.value) == {}
  {
    MakeRoomKeeps(db, req.parent);
    var roomy := MakeRoom(db, req.parent);
    assert Kept(db, roomy, req.parent);
    InsertKids(roomy.nodes, roomy.nextNode, Leaf(db.nodes[req.parent], req, OrderFor(db.nodes, req)), req.parent);
  }

  // ------------------------------------------------------------------
  // Every reachable store
  // ------------------------------------------------------------------

  ghost function ReachedWorld(actions: seq<Action>): (w: World)
    ensures Inv(w.db)
  {
    EmptyInv();
    RunKeeps(EMPTY, actions);
    Run(EMPTY, actions)
  }

  ghost function Reached(actions: seq<Action>): (db: Db)
    ensures Inv(db)
  {
    ReachedWorld(actions).db
  }

  /** The breadcrumb of every node leads from its tree's only root down to it, inside the
      tree, and all nodes on it but the last have a summary if the task was described. */
  lemma {:induction false} ReachedBreadcrumbs(actions: seq<Action>, n: NodeId)
    requires n in Reached(actions).nodes
    ensures var db := Reached(actions);
            && var t := db.nodes[n].tree;
            && Path(db.nodes, n)[0] == db.trees[t].root
            && (forall x :: x in Path(db.nodes, n) ==> db.nodes[x].tree == t)
            && (forall x :: x in Path(db.nodes, n) && x != n && db.trees[t].description != "" ==>
                  Truthy(db.nodes[x].summary))
  {
    BreadcrumbInTree(Reached(actions), n);
  }

  lemma {:induction false} BreadcrumbInTree(db: Db, n: NodeId)
    requires Inv(db) && n in db.nodes
    ensures var t := db.nodes[n].tree;
            && Path(db.nodes, n)[0] == db.trees[t].root
            && (forall x :: x in Path(db.nodes, n) ==> db.nodes[x].tree == t)
            && (forall x :: x in Path(db.nodes, n) && x != n && db.trees[t].description != "" ==>
                  Truthy(db.nodes[x].summary))
    decreases Up(db.nodes, n)
  {
    assert ParentOk(db, n) && TreeOk(db, db.nodes[n].tree);
    if db.nodes[n].parent.Some? {
      ParentRanks(db.nodes, n);
      BreadcrumbInTree(db, db.nodes[n].parent.value);
    }
  }

  /** Tree records count their nodes exactly and keep their cursor inside the tree. */
  lemma {:induction false} ReachedTrees(actions: seq<Action>, t: TreeId)
    requires t in Reached(actions).trees
    ensures var db := Reached(actions);
            && db.trees[t].total == |NodesOf(db.nodes, t)|
            && db.trees[t].cursor in db.nodes && db.nodes[db.trees[t].cursor].tree == t
  {
    assert TreeOk(Reached(actions), t);
  }

  /** No viewport, group nodes included, ever exceeds max(max_children, 4) children. */
  lemma {:induction false} ReachedViewports(actions: seq<Action>, n: NodeId)
    requires n in Reached(actions).nodes
    ensures var db := Reached(actions);
            db.nodes[n].tree in db.trees && |Children(db.nodes, n)| <= Cap(db.trees[db.nodes[n].tree].maxChildren)
  {
    assert NodeOk(Reached(actions), n);
    ChildCount(Reached(actions).nodes, n);
  }

  /** Reclustering is paid for by writes: floor(M/2) - 1 of them per group. */
  lemma {:induction false} ReachedGroupsArePaid(actions: seq<Action>, n: NodeId)
    requires n in Reached(actions).nodes
    ensures var db := Reached(actions);
            && db.nodes[n].tree in db.trees && n in db.tally
            && var M := db.trees[db.nodes[n].tree].maxChildren;
               M >= 4 ==> db.tally[n].groups * (M / 2 - 1) <= db.tally[n].writes
  {
    var db := Reached(actions);
    assert NodeOk(db, n);
    AbsorbedProduct(db.trees[db.nodes[n].tree].maxChildren, db.tally[n].groups);
  }

  /** The stored depth misses exactly the moves of the node and of its ancestors. */
  lemma {:induction false} ReachedDepths(actions: seq<Action>, n: NodeId)
    requires n in Reached(actions).nodes
    ensures var db := Reached(actions);
            && |Path(db.nodes, n)| - 1 == db.nodes[n].depth + Moves(db.nodes, db.tally, n)
            && db.nodes[n].depth <= |Path(db.nodes, n)| - 1
  {
    assert NodeOk(Reached(actions), n);
  }

  /** Running on never drops or reorders a section collected from any node. */
  lemma {:induction false} SectionsSurvive(actions: seq<Action>, more: seq<Action>, n: NodeId)
    requires n in Reached(actions).nodes
    ensures var db, later := Reached(actions), Run(ReachedWorld(actions), more).db;
            && Forest(later.nodes) && n in later.nodes
            && Older(Collect(later.nodes, n), db.nextNode) == Collect(db.nodes, n)
            && later.nodes[n].content == db.nodes[n].content
  {
    RunKeeps(ReachedWorld(actions), more);
    assert Kept(Reached(actions), Run(ReachedWorld(actions), more).db, n);
  }

  /** In every reachable world each service's cache is correct, so no operation of a confined
      service changes a node outside its subtree or creates one there. */
  lemma {:induction false} ReachedStayInside(actions: seq<Action>, i: nat, a: Action, n: NodeId)
    requires i < |ReachedWorld(actions).services| && Confining(ReachedWorld(actions).services[i].policy)
    requires !a.Open? && !a.DoCreate?
    ensures var db, svc := Reached(actions), ReachedWorld(actions).services[i];
            && CacheOk(db.nodes, svc)
            && Sound(db)
            && Apart(db.nodes, Apply(db, svc, a).0.nodes, svc.scope, n)
  {
    EmptyInv();
    RunKeepsWorld(EMPTY, actions);
    InvSound(Reached(actions));
    OperationsStayInside(Reached(actions), ReachedWorld(actions).services[i], a, n);
  }

  // ------------------------------------------------------------------
  // Reached failures
  // ------------------------------------------------------------------

  /** n times the same write by the first service, which has no scope. */
  function Again(req: Request, n: nat): seq<Action> {
    if n == 0 then [] else [DoWrite(0, req)] + Again(req, n - 1)
  }

  /** Automatic writes below a node whose children all have order 0 leave it so. */
  lemma {:induction false} FillsWithZeros(w: World, req: Request, k: nat, n: nat, M: int, filling: seq<Action>)
    returns (full: World)
    requires Inv(w.db) && Automatic(req) && ZeroOrders(w.db, req.parent, k, M) && k + n <= M
    requires w.services != [] && w.services[0].scope == None
    requires filling == Again(req, n)
    ensures full == Run(w, filling)
    ensures Inv(full.db) && ZeroOrders(full.db, req.parent, k + n, M) && full.services == w.services
    decreases n
  {
    full := w;
    if n > 0 {
      var rest := Again(req, n - 1);
      var next := OneWrite(w, req, k, M, filling, rest);
      full := FillsWithZeros(next, req, k + 1, n - 1, M, rest);
    }
  }

  lemma {:induction false} OneWrite(w: World, req: Request, k: nat, M: int, filling: seq<Action>, rest: seq<Action>)
    returns (next: World)
    requires Inv(w.db) && Automatic(req) && ZeroOrders(w.db, req.parent, k, M) && k < M
    requires w.services != [] && w.services[0].scope == None
    requires filling == [DoWrite(0, req)] + rest
    ensures Inv(next.db) && ZeroOrders(next.db, req.parent, k + 1, M) && next.services == w.services
    ensures Run(w, filling) == Run(next, rest)
    ensures next.db == WriteUnder(w.db, req).0
  {
    InvSound(w.db);
    WriteUnderKeeps(w.db, req);
    WriteActs(w, req);
    OneMoreZero(w.db, req, k, M);
    next := World(WriteUnder(w.db, req).0, w.services);
    RunStep(w, DoWrite(0, req), rest, filling);
  }

  /** The last of these writes, by itself. */
  lemma {:induction false} FillsUp(w: World, req: Request, n: nat, M: int, filling: seq<Action>)
    returns (full: World)
    requires Inv(w.db) && Automatic(req) && ZeroOrders(w.db, req.parent, 0, M) && n < M
    requires w.services != [] && w.services[0].scope == None
    requires filling == Again(req, n) + [DoWrite(0, req)]
    ensures full == Run(w, filling)
    ensures Inv(full.db) && ZeroOrders(full.db, req.parent, n + 1, M)
    ensures Printed(req) ==> LastPrints(full.db.nodes, req.parent)
  {
    var before := FillsWithZeros(w, req, 0, n, M, Again(req, n));
    full := OneWrite(before, req, n, M, [DoWrite(0, req)], []);
    ChildCount(before.db.nodes, req.parent);
    if Printed(req) {
      NewcomerPrintsLast(before.db, req);
    }
    RunBoth(w, Again(req, n), [DoWrite(0, req)]);
  }

  lemma {:induction false} RunBoth(w: World, a: seq<Action>, b: seq<Action>)
    requires Inv(w.db)
    ensures Inv(Run(w, a).db) && Run(w, a + b) == Run(Run(w, a), b)
    decreases |a|
  {
    RunKeeps(w, a);
    if a == [] {
      assert a + b == b;
    } else {
      InvSound(w.db);
      ActKeeps(w, a[0]);
      assert (a + b)[1..] == a[1..] + b;
      RunBoth(Act(w, a[0]), a[1..], b);
    }
  }

  lemma {:induction false} WriteActs(w: World, req: Request)
    requires Inv(w.db) && Sound(w.db) && req.parent in w.db.nodes && w.services != [] && w.services[0].scope == None
    ensures Act(w, DoWrite(0, req)) == World(WriteUnder(w.db, req).0, w.services)
  {
  }

  /** A new tree, with a service to write to it. */
  function FreshWorld(M: nat): World {
    World(CreateTree(EMPTY.db, "t", M), [NewService(None, CHILD_RECURSION)])
  }

  lemma {:induction false} FreshReached(M: nat, more: seq<Action>)
    ensures Inv(FreshWorld(M).db)
    ensures ReachedWorld([Open(None, CHILD_RECURSION), DoCreate("t", M)] + more) == Run(FreshWorld(M), more)
  {
    var all := [Open(None, CHILD_RECURSION), DoCreate("t", M)] + more;
    EmptyInv();
    InvSound(EMPTY.db);
    CreateTreeKeeps(EMPTY.db, "t", M);
    var served := World(EMPTY.db, [NewService(None, CHILD_RECURSION)]);
    assert Act(EMPTY, all[0]) == served && Act(served, all[1]) == FreshWorld(M);
    RunStep(EMPTY, all[0], [DoCreate("t", M)] + more, all);
    RunStep(served, all[1], more, [DoCreate("t", M)] + more);
  }

  lemma {:induction false} RunStep(w: World, a: Action, rest: seq<Action>, all: seq<Action>)
    requires Inv(w.db) && Sound(w.db) && all == [a] + rest
    ensures Inv(Act(w, a).db) && Run(w, all) == Run(Act(w, a), rest)
  {
    ActKeeps(w, a);
    assert all[0] == a && all[1..] == rest;
  }

  /** The three anchors of a new tree have a summary and no children; the third is its output. */
  lemma {:induction false} AnchorIsEmpty(M: nat, p: NodeId)
    requires 1 <= p <= 3
    ensures Inv(FreshWorld(M).db) && ZeroOrders(FreshWorld(M).db, p, 0, M)
    ensures Kids(FreshWorld(M).db.nodes, p) == {}
  {
    var db := FreshWorld(M).db;
    EmptyInv();
    CreateTreeKeeps(EMPTY.db, "t", M);
    var anchors := AnchorNodes(0, 0);
    assert db.nodes[1] == anchors.0 && db.nodes[2] == anchors.1 && db.nodes[3] == anchors.2;
    assert Kids(db.nodes, p) == {};
  }

  /** After a tree was created and a service opened for it, whatever follows. */
  lemma {:induction false} FromFresh(M: nat, p: NodeId, more: seq<Action>)
    returns (actions: seq<Action>, planted: World)
    requires 1 <= p <= 3
    ensures Inv(planted.db) && ZeroOrders(planted.db, p, 0, M)
    ensures planted.services != [] && planted.services[0].scope == None
    ensures ReachedWorld(actions) == Run(planted, more)
  {
    planted := FreshWorld(M);
    actions := [Open(None, CHILD_RECURSION), DoCreate("t", M)] + more;
    AnchorIsEmpty(M, p);
    FreshReached(M, more);
  }

  lemma {:induction false} AnchorFills(M: nat, req: Request) returns (actions: seq<Action>, full: World)
    requires M >= 2 && Automatic(req) && 1 <= req.parent <= 3
    ensures full == ReachedWorld(actions) && Inv(full.db) && ZeroOrders(full.db, req.parent, M, M)
    ensures Printed(req) ==> LastPrints(full.db.nodes, req.parent)
  {
    var filling := Again(req, M - 1) + [DoWrite(0, req)];
    var planted;
    actions, planted := FromFresh(M, req.parent, filling);
    full := FillsUp(planted, req, M - 1, M, filling);
  }

  /** For every max_children from 2 on a run from the empty store leads to an anchor where the next
      automatic write fails to append, to fail cleanly and, if the writes print, to print in turn. */
  lemma {:induction false} ReachedFailures(M: nat, req: Request, next: Request)
    returns (actions: seq<Action>, db: Db)
    requires M >= 2 && Automatic(req) && Automatic(next) && 1 <= req.parent == next.parent <= 3
    ensures db == Reached(actions) && next.parent in db.nodes
    ensures FailsAt(db, next, Printed(req) && Printed(next))
  {
    var full;
    actions, full := AnchorFills(M, req);
    db := full.db;
    FullNodeFails(db, next, M, Printed(req) && Printed(next));
  }
}
