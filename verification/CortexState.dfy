/** The database state, the services and every CORTEX operation as a function on them. */
module CortexState {
  import opened Basics
  import opened CortexModel

  datatype TreeStatus = TreeActive | TreeSuspended | TreeComplete | TreeArchived

  datatype Tree = Tree(
    description: string,
    root: NodeId,
    outputRoot: NodeId,
    cursor: NodeId,
    total: nat,
    maxChildren: int,
    status: TreeStatus)

  /** What happened to one node so far: children written to it, groups created under it,
      children it was created with, and how often it was itself moved under a group. */
  datatype Tally = Tally(writes: nat, groups: nat, seeds: nat, moves: nat)

  const UNTOUCHED := Tally(0, 0, 0, 0)

  datatype Db = Db(
    nodes: Nodes,
    trees: map<TreeId, Tree>,
    nextNode: NodeId,
    nextTree: TreeId,
    tally: map<NodeId, Tally>)

  datatype Policy = Policy(
    canReadOutside: bool,
    canWriteOutside: bool,
    canNavigateToSiblings: bool,
    errorOnViolation: bool)

  const CHILD_RECURSION := Policy(true, false, false, true)

  /** A service: its scope root, its policy and the ids it has seen inside the scope. */
  datatype Service = Service(scope: Option<NodeId>, policy: Policy, cache: set<NodeId>)

  function NewService(scope: Option<NodeId>, policy: Policy): Service {
    Service(scope, policy, if scope.Some? then {scope.value} else {})
  }

  datatype Error = NodeNotFound | TreeNotFound | NoSummary | ScopeViolation | BadEnum | NotResumable

  datatype Result<+T> = Ok(value: T) | Err(error: Error)

  // ------------------------------------------------------------------
  // Reading a node under a scope
  // ------------------------------------------------------------------

  predicate Inside(nodes: Nodes, scope: Option<NodeId>, n: NodeId)
    requires Forest(nodes) && n in nodes
  {
    scope == None || Within(nodes, n, scope.value)
  }

  function GetNode(nodes: Nodes, svc: Service, n: NodeId): (Service, Result<Node>)
    requires Forest(nodes)
  {
    if n !in nodes then (svc, Err(NodeNotFound))
    else if svc.scope == None || svc.scope == Some(n) || n in svc.cache then (svc, Ok(nodes[n]))
    else if Within(nodes, n, svc.scope.value) then (svc.(cache := svc.cache + {n}), Ok(nodes[n]))
    else if !svc.policy.canReadOutside && svc.policy.errorOnViolation then (svc, Err(ScopeViolation))
    else (svc, Ok(nodes[n]))
  }

  /** The ids below n that a scoped service puts into its cache when it fetches them. */
  ghost function Seen(nodes: Nodes, scope: Option<NodeId>, n: NodeId): set<NodeId>
    requires Forest(nodes)
  {
    set m | m in nodes && scope.Some? && m != scope.value && Within(nodes, m, n) && Within(nodes, m, scope.value)
  }

  /** The service once it has fetched n and, if that succeeded, everything below n. */
  ghost function Walk(nodes: Nodes, svc: Service, n: NodeId): Service
    requires Forest(nodes)
  {
    if GetNode(nodes, svc, n).1.Err? then svc else svc.(cache := svc.cache + Seen(nodes, svc.scope, n))
  }

  // ------------------------------------------------------------------
  // Writing
  // ------------------------------------------------------------------

  /** The largest sibling_order under p, -1 without children. */
  function MaxOrder(nodes: Nodes, p: NodeId): int {
    var kids := Children(nodes, p);
    if kids == [] then -1 else nodes[kids[|kids| - 1]].order
  }

  /** `int(max or -1) + 1`: a maximum of 0 counts as false and is taken for -1. */
  function NextOrder(nodes: Nodes, p: NodeId): int {
    (if MaxOrder(nodes, p) == 0 then -1 else MaxOrder(nodes, p)) + 1
  }

  function CreateNode(db: Db, node: Node): Db {
    db.(nodes := db.nodes[db.nextNode := node],
        nextNode := db.nextNode + 1,
        tally := db.tally[db.nextNode := UNTOUCHED])
  }

  function Digits(n: nat): string {
    if n < 10 then ["0123456789"[n]] else Digits(n / 10) + ["0123456789"[n % 10]]
  }

  function GroupNode(db: Db, p: NodeId, kids: seq<NodeId>): Node
    requires p in db.nodes && kids != [] && kids[0] in db.nodes
  {
    Node(db.nodes[p].tree, Some(p), db.nodes[kids[0]].kind,
         Some("Grouped " + Digits(|kids| / 2) + " nodes for viewport efficiency"), None, Complete,
         db.nodes[p].depth + 1, 0)
  }

  ghost function Index(s: seq<NodeId>, x: NodeId): (i: nat)
    requires x in s
    ensures i < |s| && s[i] == x
  {
    var i :| 0 <= i < |s| && s[i] == x;
    i
  }

  ghost function GroupedNodes(nodes: Nodes, kids: seq<NodeId>, half: nat, g: NodeId, group: Node): Nodes {
    map x | x in nodes.Keys + {g} ::
      if x == g then group
      else if x !in kids then nodes[x]
      else if Index(kids, x) < half then nodes[x].(parent := Some(g), order := Index(kids, x))
      else nodes[x].(order := Index(kids, x) - half + 1)
  }

  ghost function GroupedTally(tally: map<NodeId, Tally>, p: NodeId, moved: seq<NodeId>, g: NodeId): map<NodeId, Tally> {
    map x | x in tally.Keys + {g} ::
      if x == g then Tally(0, 0, |moved|, 0)
      else if x == p then tally[x].(groups := tally[x].groups + 1)
      else if x in moved then tally[x].(moves := tally[x].moves + 1)
      else tally[x]
  }

  /** With fewer than two children there is nothing to move: indexing the empty first half
      raises, the exception is swallowed, and nothing has changed. */
  ghost function Recluster(db: Db, p: NodeId): Db
    requires p in db.nodes && db.nodes[p].tree in db.trees
  {
    var kids := Children(db.nodes, p);
    var t := db.nodes[p].tree;
    var half := |kids| / 2;
    if |kids| < db.trees[t].maxChildren || half == 0 then db else
      Db(GroupedNodes(db.nodes, kids, half, db.nextNode, GroupNode(db, p, kids)),
         db.trees[t := db.trees[t].(total := db.trees[t].total + 1)],
         db.nextNode + 1,
         db.nextTree,
         GroupedTally(db.tally, p, kids[..half], db.nextNode))
  }

  datatype Request = Request(
    parent: NodeId,
    kind: Option<NodeType>,       // None: the string names no node type
    status: Option<NodeStatus>,   // None: the string names no status
    content: Option<string>,
    summary: Option<string>,
    order: Option<int>)

  function OrderFor(nodes: Nodes, req: Request): int {
    if req.order.Some? then req.order.value else NextOrder(nodes, req.parent)
  }

  /** The count test, and the reclustering it triggers. */
  ghost function MakeRoom(db: Db, p: NodeId): Db
    requires p in db.nodes && db.nodes[p].tree in db.trees
  {
    if |Children(db.nodes, p)| >= db.trees[db.nodes[p].tree].maxChildren then Recluster(db, p) else db
  }

  function Leaf(parent: Node, req: Request, order: int): Node
    requires req.kind.Some? && req.status.Some?
  {
    Node(parent.tree, Some(req.parent), req.kind.value, req.summary, req.content, req.status.value,
         parent.depth + 1, order)
  }

  function AddLeaf(db: Db, t: TreeId, leaf: Node): Db
    requires t in db.trees && leaf.parent.Some? && leaf.parent.value in db.tally
  {
    var c := db.nextNode;
    var p := leaf.parent.value;
    var made := CreateNode(db, leaf);
    made.(trees := db.trees[t := db.trees[t].(total := db.trees[t].total + 1, cursor := c)],
          tally := made.tally[p := made.tally[p].(writes := made.tally[p].writes + 1)])
  }

  /** Writing under a parent the service may reach. */
  ghost function WriteUnder(db: Db, req: Request): (Db, Result<NodeId>)
    requires req.parent in db.nodes && req.parent in db.tally && db.nodes[req.parent].tree in db.trees
  {
    var parent := db.nodes[req.parent];
    if !Truthy(parent.summary) then (db, Err(NoSummary)) else
      var order := OrderFor(db.nodes, req);
      var roomy := MakeRoom(db, req.parent);
      if req.kind == None || req.status == None then (roomy, Err(BadEnum)) else
        (AddLeaf(roomy, parent.tree, Leaf(parent, req, order)), Ok(roomy.nextNode))
  }

  ghost predicate Sound(db: Db) {
    && Forest(db.nodes)
    && db.tally.Keys == db.nodes.Keys
    && (forall n :: n in db.nodes ==> db.nodes[n].tree in db.trees)
    && (forall t {:trigger db.trees[t].cursor} :: t in db.trees ==> db.trees[t].cursor in db.nodes)
  }

  datatype Step<+T> = Step(db: Db, svc: Service, result: Result<T>)

  ghost function Write(db: Db, svc: Service, req: Request): Step<NodeId>
    requires Sound(db)
  {
    var (svc', got) := GetNode(db.nodes, svc, req.parent);
    if got.Err? then Step(db, svc', Err(got.error)) else
      var (db', result) := WriteUnder(db, req);
      Step(db', svc', result)
  }

  // ------------------------------------------------------------------
  // The other operations
  // ------------------------------------------------------------------

  function SetCursor(db: Db, t: TreeId, n: NodeId): Db
    requires t in db.trees
  {
    db.(trees := db.trees[t := db.trees[t].(cursor := n)])
  }

  function SetTreeStatus(db: Db, t: TreeId, status: TreeStatus): Db
    requires t in db.trees
  {
    db.(trees := db.trees[t := db.trees[t].(status := status)])
  }

  function Touched(node: Node): Node {
    if node.status == Pending then node.(status := Active) else node
  }

  ghost function Read(db: Db, svc: Service, n: NodeId): Step<Node>
    requires Sound(db)
  {
    var (svc', got) := GetNode(db.nodes, svc, n);
    if got.Err? then Step(db, svc', Err(got.error)) else
      var touched := db.(nodes := db.nodes[n := Touched(db.nodes[n])]);
      Step(SetCursor(touched, db.nodes[n].tree, n), svc', Ok(touched.nodes[n]))
  }

  datatype Viewport = Viewport(current: NodeId, children: seq<NodeId>, parent: Option<NodeId>, breadcrumb: seq<NodeId>)

  /** The cursor moves before the parent is fetched, and stays moved if that fetch raises. */
  ghost function Navigate(db: Db, svc: Service, n: NodeId): Step<Viewport>
    requires Sound(db)
  {
    var (svc1, got) := GetNode(db.nodes, svc, n);
    if got.Err? then Step(db, svc1, Err(got.error)) else
      var moved := SetCursor(db, db.nodes[n].tree, n);
      var view := Viewport(n, Children(db.nodes, n), db.nodes[n].parent, Path(db.nodes, n));
      if db.nodes[n].parent == None then Step(moved, svc1, Ok(view)) else
        var (svc2, above) := GetNode(db.nodes, svc1, db.nodes[n].parent.value);
        Step(moved, svc2, if above.Err? then Err(above.error) else Ok(view))
  }

  /** A task node under n; its content is the JSON text of the request, never empty. */
  ghost function Recurse(db: Db, svc: Service, n: NodeId, payload: string, task: string): Step<NodeId>
    requires Sound(db)
  {
    var (svc', got) := GetNode(db.nodes, svc, n);
    if got.Err? then Step(db, svc', Err(got.error))
    else Write(db, svc', Request(n, Some(Task), Some(Pending), Some(payload), Some(Prefix(task, 500)), None))
  }

  function Prefix(s: string, k: nat): string {
    if |s| <= k then s else s[..k]
  }

  ghost function WriteCheckpoint(db: Db, svc: Service, t: TreeId, payload: string, progress: string): Step<NodeId>
    requires Sound(db)
  {
    if t !in db.trees then Step(db, svc, Err(TreeNotFound))
    else Write(db, svc, Request(db.trees[t].cursor, Some(Checkpoint), Some(Complete), Some(payload),
                                Some(Prefix(progress, 500)), None))
  }

  const SUSPENDED := "Tree suspended by user or system."

  ghost function Suspend(db: Db, svc: Service, t: TreeId, payload: string): Step<NodeId>
    requires Sound(db)
  {
    var step := WriteCheckpoint(db, svc, t, payload, SUSPENDED);
    if step.result.Err? || t !in step.db.trees then step
    else step.(db := SetTreeStatus(step.db, t, TreeSuspended))
  }

  function CheckpointsUnder(nodes: Nodes, n: NodeId): set<NodeId> {
    set k | k in Kids(nodes, n) && nodes[k].kind == Checkpoint
  }

  function Newest(S: set<NodeId>): (m: NodeId)
    requires S != {}
    ensures m in S && forall k :: k in S ==> k <= m
  {
    NewestExists(S);
    var m :| m in S && forall k :: k in S ==> k <= m;
    m
  }

  lemma {:induction false} NewestExists(S: set<NodeId>)
    requires S != {}
    ensures exists m :: m in S && forall k :: k in S ==> k <= m
  {
    var key: nat -> int := k => 0 - k;
    ForemostExists(S, key);
    var m: nat :| Foremost(S, key, m);
    assert m in S && forall k :: k in S ==> k <= m;
  }

  /** `_get_last_checkpoint`: the text of the newest checkpoint below n, if it has any. */
  function LastCheckpoint(nodes: Nodes, n: NodeId): Option<string> {
    var S := CheckpointsUnder(nodes, n);
    if S == {} || !Truthy(nodes[Newest(S)].content) then None else nodes[Newest(S)].content
  }

  ghost function Resume(db: Db, svc: Service, t: TreeId): Step<(Viewport, Option<string>)>
    requires Sound(db)
  {
    if t !in db.trees then Step(db, svc, Err(TreeNotFound))
    else if db.trees[t].status != TreeActive && db.trees[t].status != TreeSuspended then
      Step(db, svc, Err(NotResumable))
    else
      var cursor := db.trees[t].cursor;
      var step := Navigate(db, svc, cursor);
      Step(SetTreeStatus(step.db, t, TreeActive), step.svc,
           if step.result.Err? then Err(step.result.error)
           else Ok((step.result.value, LastCheckpoint(db.nodes, cursor))))
  }

  const KNOWLEDGE := "Ingested documents and external knowledge sources."
  const WORKING := "Agent's intermediate findings, reasoning, and discovered facts."
  const OUTPUT := "Assembled output document sections."

  function TaskRoot(t: TreeId, description: string): Node {
    Node(t, None, Root, Some(Prefix(description, 500)), Some(description), Active, 0, 0)
  }

  function AnchorNodes(t: TreeId, r: NodeId): (Node, Node, Node) {
    (Anchor(t, r, Knowledge, KNOWLEDGE, Active, 0),
     Anchor(t, r, Finding, WORKING, Active, 1),
     Anchor(t, r, Output, OUTPUT, Pending, 2))
  }

  /** A new tree: the task root and its knowledge, working and output anchors. */
  function CreateTree(db: Db, description: string, maxChildren: int): Db {
    var t, r := db.nextTree, db.nextNode;
    var anchors := AnchorNodes(t, r);
    Db(db.nodes[r := TaskRoot(t, description)][r + 1 := anchors.0][r + 2 := anchors.1][r + 3 := anchors.2],
       db.trees[t := Tree(description, r, r + 3, r, 4, maxChildren, TreeActive)],
       r + 4,
       t + 1,
       db.tally[r := Tally(0, 0, 3, 0)][r + 1 := UNTOUCHED][r + 2 := UNTOUCHED][r + 3 := UNTOUCHED])
  }

  function Anchor(t: TreeId, root: NodeId, kind: NodeType, summary: string, status: NodeStatus, order: int): Node {
    Node(t, Some(root), kind, Some(summary), None, status, 1, order)
  }

  // ------------------------------------------------------------------
  // Runs: any interleaving of operations of any number of services
  // ------------------------------------------------------------------

  datatype Action =
    | Open(scope: Option<NodeId>, policy: Policy)
    | DoCreate(description: string, maxChildren: int)
    | DoWrite(svc: nat, req: Request)
    | DoRead(svc: nat, node: NodeId)
    | DoNavigate(svc: nat, node: NodeId)
    | DoRecurse(svc: nat, node: NodeId, payload: string, task: string)
    | DoCheckpoint(svc: nat, tree: TreeId, payload: string, progress: string)
    | DoSuspend(svc: nat, tree: TreeId, payload: string)
    | DoResume(svc: nat, tree: TreeId)
    | DoAssemble(svc: nat, tree: TreeId)

  datatype World = World(db: Db, services: seq<Service>)

  const EMPTY := World(Db(map[], map[], 0, 0, map[]), [])

  ghost function Apply(db: Db, svc: Service, a: Action): (Db, Service)
    requires Sound(db) && !a.Open? && !a.DoCreate?
  {
    match a
    case DoWrite(_, req) => var s := Write(db, svc, req); (s.db, s.svc)
    case DoRead(_, n) => var s := Read(db, svc, n); (s.db, s.svc)
    case DoNavigate(_, n) => var s := Navigate(db, svc, n); (s.db, s.svc)
    case DoRecurse(_, n, payload, task) => var s := Recurse(db, svc, n, payload, task); (s.db, s.svc)
    case DoCheckpoint(_, t, payload, progress) =>
      var s := WriteCheckpoint(db, svc, t, payload, progress); (s.db, s.svc)
    case DoSuspend(_, t, payload) => var s := Suspend(db, svc, t, payload); (s.db, s.svc)
    case DoResume(_, t) => var s := Resume(db, svc, t); (s.db, s.svc)
    case DoAssemble(_, t) => (db, if t in db.trees then Walk(db.nodes, svc, db.trees[t].outputRoot) else svc)
  }

  /** An action naming no open service does nothing. */
  ghost function Act(w: World, a: Action): World
    requires Sound(w.db)
  {
    match a
    case Open(scope, policy) => w.(services := w.services + [NewService(scope, policy)])
    case DoCreate(description, maxChildren) => w.(db := CreateTree(w.db, description, maxChildren))
    case _ =>
      if a.svc >= |w.services| then w else
        var (db, svc) := Apply(w.db, w.services[a.svc], a);
        World(db, w.services[a.svc := svc])
  }
}
