/** The tallies of the proof are the counts of what happened: writes, groups and moves of each
    node, over single writes and over whole runs. */
module CortexTallies {
  import opened Basics
  import opened CortexModel
  import opened CortexRegroup
  import opened CortexState
  import opened CortexInvariant
  import opened CortexRuns
  import opened CortexWrites
  import opened CortexScope

  /** The tally counts what it says: a successful write is one write to its parent, a
      reclustering, even one before a failure, is one group there, each change of parent is one
      move, and no other node's account changes. */
  lemma {:induction false} WriteTallies(db: Db, req: Request, n: NodeId)
    requires Inv(db) && req.parent in db.nodes && n in db.nodes
    ensures var after := WriteUnder(db, req).0;
            && n in after.tally && n in after.nodes
            && after.tally[n].writes == db.tally[n].writes + Writes(db, req, n)
            && after.tally[n].groups == db.tally[n].groups + Groups(db, req, n)
            && after.tally[n].moves
                 == db.tally[n].moves + (if after.nodes[n].parent != db.nodes[n].parent then 1 else 0)
  {
    if Truthy(db.nodes[req.parent].summary) {
      RoomTallies(db, req.parent, n);
      RoomTallies(db, req.parent, req.parent);
    }
  }

  /** Is it a write to n that succeeds? */
  ghost function Writes(db: Db, req: Request, n: NodeId): nat
    requires Inv(db) && req.parent in db.nodes
  {
    if n == req.parent && WriteUnder(db, req).1.Ok? then 1 else 0
  }

  /** Is it a write to n that gets as far as a reclustering? */
  ghost function Groups(db: Db, req: Request, n: NodeId): nat
    requires Inv(db) && req.parent in db.nodes
  {
    if n == req.parent && Truthy(db.nodes[n].summary) && Reclusters(db, n) then 1 else 0
  }

  lemma {:induction false} RoomTallies(db: Db, p: NodeId, n: NodeId)
    requires Inv(db) && p in db.nodes && n in db.nodes && Truthy(db.nodes[p].summary)
    ensures var roomy := MakeRoom(db, p);
            && n in roomy.tally && n in roomy.nodes && n != roomy.nextNode
            && roomy.tally[n].writes == db.tally[n].writes
            && roomy.tally[n].groups == db.tally[n].groups + (if n == p && Reclusters(db, n) then 1 else 0)
            && roomy.tally[n].moves
                 == db.tally[n].moves + (if roomy.nodes[n].parent != db.nodes[n].parent then 1 else 0)
  {
    ReclusterIs(db, p);
    if Reclusters(db, p) {
      var roomy, half := MakeRoom(db, p), |Children(db.nodes, p)| / 2;
      var group :| GroupFits(db, roomy, p, half, group);
      RegroupFields(db.nodes, roomy.nodes, p, half, db.nextNode, group, n);
      ParentIsNotMoved(db.nodes, p, half);
    }
  }

  lemma {:induction false} ParentIsNotMoved(nodes: Nodes, p: NodeId, half: nat)
    requires Forest(nodes) && p in nodes && half <= |Children(nodes, p)|
    ensures p !in Children(nodes, p)[..half]
  {
    ChildrenListed(nodes, p);
    assert p !in Kids(nodes, p) by {
      if p in Kids(nodes, p) {
        ParentRanks(nodes, p);
      }
    }
  }

  // ------------------------------------------------------------------
  // Runs
  // ------------------------------------------------------------------

  function TallyOf(db: Db, n: NodeId): Tally {
    if n in db.tally then db.tally[n] else UNTOUCHED
  }

  /** The accounts agree in all but the children a node was created with. */
  predicate SameCounts(a: Tally, b: Tally) {
    a.writes == b.writes && a.groups == b.groups && a.moves == b.moves
  }

  /** New nodes start with an empty account. */
  lemma {:induction false} NewTallies(db: Db, req: Request, n: NodeId)
    requires Inv(db) && req.parent in db.nodes && n !in db.nodes
    ensures SameCounts(TallyOf(WriteUnder(db, req).0, n), UNTOUCHED)
  {
    if Truthy(db.nodes[req.parent].summary) {
      ReclusterIs(db, req.parent);
    }
  }

  /** The request with which an action gets past the fetch of the parent, if it writes at all. */
  ghost function Requested(w: World, a: Action): Option<Request>
    requires Sound(w.db)
  {
    if a.Open? || a.DoCreate? || a.svc >= |w.services| then None else
      var svc := w.services[a.svc];
      match a
      case DoWrite(_, req) => Fetched(w.db, svc, req)
      case DoRecurse(_, n, payload, task) =>
        if GetNode(w.db.nodes, svc, n).1.Err? then None
        else Fetched(w.db, GetNode(w.db.nodes, svc, n).0,
                     Request(n, Some(Task), Some(Pending), Some(payload), Some(Prefix(task, 500)), None))
      case DoCheckpoint(_, t, payload, progress) => CheckpointRequest(w.db, svc, t, payload, progress)
      case DoSuspend(_, t, payload) => CheckpointRequest(w.db, svc, t, payload, SUSPENDED)
      case _ => None
  }

  ghost function Fetched(db: Db, svc: Service, req: Request): (r: Option<Request>)
    requires Sound(db)
    ensures r.Some? ==> r.value.parent in db.nodes
  {
    if GetNode(db.nodes, svc, req.parent).1.Ok? then Some(req) else None
  }

  ghost function CheckpointRequest(db: Db, svc: Service, t: TreeId, payload: string, progress: string): Option<Request>
    requires Sound(db)
  {
    if t !in db.trees then None
    else Fetched(db, svc, Request(db.trees[t].cursor, Some(Checkpoint), Some(Complete), Some(payload),
                                  Some(Prefix(progress, 500)), None))
  }

  /** An action with a request does to nodes and tallies what the write does, one without it
      changes no parent and no count. */
  ghost predicate Accounts(db: Db, after: Db, req: Option<Request>, n: NodeId)
    requires Inv(db)
  {
    match req
    case Some(r) =>
      && r.parent in db.nodes
      && after.tally == WriteUnder(db, r).0.tally && after.nodes == WriteUnder(db, r).0.nodes
    case None =>
      && SameCounts(TallyOf(after, n), TallyOf(db, n))
      && (n in db.nodes ==> n in after.nodes && after.nodes[n].parent == db.nodes[n].parent)
  }

  lemma {:induction false} ActAccounts(w: World, a: Action, n: NodeId)
    requires Inv(w.db) && Sound(w.db)
    ensures Accounts(w.db, Act(w, a).db, Requested(w, a), n)
  {
    if a.DoCreate? {
      CreateAccounts(w.db, a.description, a.maxChildren, n);
    } else if !a.Open? && a.svc < |w.services| {
      ApplyAccounts(w, a, n);
    }
  }

  lemma {:induction false} ApplyAccounts(w: World, a: Action, n: NodeId)
    requires Inv(w.db) && Sound(w.db) && !a.Open? && !a.DoCreate? && a.svc < |w.services|
    ensures Accounts(w.db, Apply(w.db, w.services[a.svc], a).0, Requested(w, a), n)
  {
    var svc := w.services[a.svc];
    match a
    case DoWrite(_, req) => WriteAccounts(w.db, svc, req, n);
    case DoRead(_, m) => ReadersAccount(w.db, svc, a, n);
    case DoNavigate(_, m) => ReadersAccount(w.db, svc, a, n);
    case DoRecurse(_, m, payload, task) => RecurseAccounts(w.db, svc, m, payload, task, n);
    case DoCheckpoint(_, t, payload, progress) => CheckpointAccounts(w.db, svc, t, payload, progress, n);
    case DoSuspend(_, t, payload) =>
      CheckpointAccounts(w.db, svc, t, payload, SUSPENDED, n);
      SuspendAsCheckpoint(w.db, svc, t, payload);
    case DoResume(_, t) => ReadersAccount(w.db, svc, a, n);
    case DoAssemble(_, t) => ReadersAccount(w.db, svc, a, n);
  }

  lemma {:induction false} ReadersAccount(db: Db, svc: Service, a: Action, n: NodeId)
    requires Inv(db) && Sound(db) && (a.DoRead? || a.DoNavigate? || a.DoResume? || a.DoAssemble?)
    ensures Accounts(db, Apply(db, svc, a).0, None, n)
  {
  }

  lemma {:induction false} RecurseAccounts(db: Db, svc: Service, m: NodeId, payload: string, task: string, n: NodeId)
    requires Inv(db) && Sound(db)
    ensures Accounts(db, Recurse(db, svc, m, payload, task).db,
                     if GetNode(db.nodes, svc, m).1.Err? then None
                     else Fetched(db, GetNode(db.nodes, svc, m).0,
                                  Request(m, Some(Task), Some(Pending), Some(payload), Some(Prefix(task, 500)), None)),
                     n)
  {
    WriteAccounts(db, GetNode(db.nodes, svc, m).0,
                  Request(m, Some(Task), Some(Pending), Some(payload), Some(Prefix(task, 500)), None), n);
  }

  lemma {:induction false} SuspendAsCheckpoint(db: Db, svc: Service, t: TreeId, payload: string)
    requires Sound(db)
    ensures var a, b := Suspend(db, svc, t, payload).db, WriteCheckpoint(db, svc, t, payload, SUSPENDED).db;
            a.nodes == b.nodes && a.tally == b.tally
  {
  }

  lemma {:induction false} WriteAccounts(db: Db, svc: Service, req: Request, n: NodeId)
    requires Inv(db) && Sound(db)
    ensures Accounts(db, Write(db, svc, req).db, Fetched(db, svc, req), n)
  {
  }

  lemma {:induction false} CheckpointAccounts(db: Db, svc: Service, t: TreeId, payload: string, progress: string,
                                              n: NodeId)
    requires Inv(db) && Sound(db)
    ensures Accounts(db, WriteCheckpoint(db, svc, t, payload, progress).db,
                     CheckpointRequest(db, svc, t, payload, progress), n)
  {
    if t in db.trees {
      WriteAccounts(db, svc, Request(db.trees[t].cursor, Some(Checkpoint), Some(Complete), Some(payload),
                                     Some(Prefix(progress, 500)), None), n);
    }
  }

  lemma {:induction false} CreateAccounts(db: Db, description: string, maxChildren: int, n: NodeId)
    requires Inv(db)
    ensures Accounts(db, CreateTree(db, description, maxChildren), None, n)
  {
  }

  // ------------------------------------------------------------------
  // Counting over a run
  // ------------------------------------------------------------------

  ghost function StepWrites(w: World, a: Action, n: NodeId): nat
    requires Inv(w.db) && Sound(w.db)
  {
    match Requested(w, a)
    case Some(req) => if req.parent in w.db.nodes then Writes(w.db, req, n) else 0
    case None => 0
  }

  ghost function StepGroups(w: World, a: Action, n: NodeId): nat
    requires Inv(w.db) && Sound(w.db)
  {
    match Requested(w, a)
    case Some(req) => if req.parent in w.db.nodes then Groups(w.db, req, n) else 0
    case None => 0
  }

  ghost function StepMoves(w: World, a: Action, n: NodeId): nat
    requires Inv(w.db) && Sound(w.db)
  {
    var after := Act(w, a).db.nodes;
    if n in w.db.nodes && n in after && after[n].parent != w.db.nodes[n].parent then 1 else 0
  }

  lemma {:induction false} StepTallies(w: World, a: Action, n: NodeId)
    requires Inv(w.db) && Sound(w.db)
    ensures var now, then' := TallyOf(w.db, n), TallyOf(Act(w, a).db, n);
            && then'.writes == now.writes + StepWrites(w, a, n)
            && then'.groups == now.groups + StepGroups(w, a, n)
            && then'.moves == now.moves + StepMoves(w, a, n)
  {
    ActAccounts(w, a, n);
    match Requested(w, a)
    case Some(req) =>
      if n in w.db.nodes {
        WriteTallies(w.db, req, n);
      } else {
        NewTallies(w.db, req, n);
      }
    case None =>
  }

  ghost function RunWrites(w: World, actions: seq<Action>, n: NodeId): nat
    requires Inv(w.db)
    decreases |actions|
  {
    if actions == [] then 0 else
      InvSound(w.db);
      ActKeeps(w, actions[0]);
      StepWrites(w, actions[0], n) + RunWrites(Act(w, actions[0]), actions[1..], n)
  }

  ghost function RunGroups(w: World, actions: seq<Action>, n: NodeId): nat
    requires Inv(w.db)
    decreases |actions|
  {
    if actions == [] then 0 else
      InvSound(w.db);
      ActKeeps(w, actions[0]);
      StepGroups(w, actions[0], n) + RunGroups(Act(w, actions[0]), actions[1..], n)
  }

  ghost function RunMoves(w: World, actions: seq<Action>, n: NodeId): nat
    requires Inv(w.db)
    decreases |actions|
  {
    if actions == [] then 0 else
      InvSound(w.db);
      ActKeeps(w, actions[0]);
      StepMoves(w, actions[0], n) + RunMoves(Act(w, actions[0]), actions[1..], n)
  }

  /** Over any run an account grows by the writes, groups and moves of the run. */
  lemma {:induction false} RunTallies(w: World, actions: seq<Action>, n: NodeId)
    requires Inv(w.db)
    ensures var now, then' := TallyOf(w.db, n), TallyOf(Run(w, actions).db, n);
            && then'.writes == now.writes + RunWrites(w, actions, n)
            && then'.groups == now.groups + RunGroups(w, actions, n)
            && then'.moves == now.moves + RunMoves(w, actions, n)
    decreases |actions|
  {
    if actions != [] {
      InvSound(w.db);
      ActKeeps(w, actions[0]);
      StepTallies(w, actions[0], n);
      RunTallies(Act(w, actions[0]), actions[1..], n);
    }
  }

  /** Counted over the whole life of the store: floor(M/2) - 1 successful writes to a node for each
      group ever created under it, failed writes that recluster included. */
  lemma {:induction false} GroupsArePaidByRun(actions: seq<Action>, n: NodeId)
    requires n in Reached(actions).nodes
    ensures Inv(EMPTY.db)
    ensures var db := Reached(actions);
            && db.nodes[n].tree in db.trees
            && var M := db.trees[db.nodes[n].tree].maxChildren;
               M >= 4 ==> RunGroups(EMPTY, actions, n) * (M / 2 - 1) <= RunWrites(EMPTY, actions, n)
  {
    EmptyInv();
    RunTallies(EMPTY, actions, n);
    ReachedGroupsArePaid(actions, n);
  }

  /** And how far stored depth lags behind: by the moves of the run, summed over the breadcrumb. */
  lemma {:induction false} DepthLagsByRun(actions: seq<Action>, n: NodeId)
    requires n in Reached(actions).nodes
    ensures var db := Reached(actions);
            |Path(db.nodes, n)| - 1 == db.nodes[n].depth + MovesOn(actions, Path(db.nodes, n))
  {
    EmptyInv();
    ReachedDepths(actions, n);
    MovesAre(actions, n);
  }

  ghost function MovesOn(actions: seq<Action>, path: seq<NodeId>): nat {
    if path == [] then 0 else
      EmptyInv();
      MovesOn(actions, path[..|path| - 1]) + RunMoves(EMPTY, actions, path[|path| - 1])
  }

  lemma {:induction false} MovesAre(actions: seq<Action>, n: NodeId)
    requires n in Reached(actions).nodes
    ensures var db := Reached(actions); Moves(db.nodes, db.tally, n) == MovesOn(actions, Path(db.nodes, n))
    decreases Up(Reached(actions).nodes, n)
  {
    var db := Reached(actions);
    var path := Path(db.nodes, n);
    EmptyInv();
    RunTallies(EMPTY, actions, n);
    if db.nodes[n].parent.Some? {
      var p := db.nodes[n].parent.value;
      ParentRanks(db.nodes, n);
      MovesAre(actions, p);
      assert path[..|path| - 1] == Path(db.nodes, p);
    } else {
      assert path[..0] == [] && path == [n];
    }
  }
}
