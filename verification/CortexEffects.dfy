/** What each operation does to the rows, field by field, and what it answers. */
module CortexEffects {
  import opened Basics
  import opened CortexModel
  import opened CortexState
  import opened CortexInvariant
  import opened CortexRuns
  import opened CortexWrites
  import opened CortexScope

  // ------------------------------------------------------------------
  // Writing
  // ------------------------------------------------------------------

  predicate Empty(s: Option<string>) {
    s == None || s == Some("")
  }

  /** The new row is the one that was asked for. */
  lemma {:induction false} WrittenRow(db: Db, req: Request)
    requires Inv(db) && req.parent in db.nodes && WriteUnder(db, req).1.Ok?
    ensures var after, c, parent := WriteUnder(db, req).0.nodes, WriteUnder(db, req).1.value, db.nodes[req.parent];
            && c !in db.nodes && c in after
            && after[c].tree == parent.tree && after[c].parent == Some(req.parent)
            && after[c].depth == parent.depth + 1
            && Some(after[c].kind) == req.kind && Some(after[c].status) == req.status
            && after[c].content == req.content && after[c].summary == req.summary
            && (req.order.Some? ==> after[c].order == req.order.value)
  {
    WriteSplits(db, req);
  }

  /** Without an order of its own it gets the largest order below its parent plus one, but 0 if
      that is 0; k is a child with the largest order. */
  lemma {:induction false} AutomaticOrder(db: Db, req: Request, k: NodeId)
    requires Inv(db) && req.parent in db.nodes && WriteUnder(db, req).1.Ok? && req.order == None
    requires k in db.nodes && db.nodes[k].parent == Some(req.parent)
    requires forall x :: x in db.nodes && db.nodes[x].parent == Some(req.parent) ==>
                           db.nodes[x].order <= db.nodes[k].order
    ensures var after, c := WriteUnder(db, req).0.nodes, WriteUnder(db, req).1.value;
            c in after && after[c].order == if db.nodes[k].order == 0 then 0 else db.nodes[k].order + 1
  {
    WrittenOrder(db, req);
    LargestOrder(db.nodes, req.parent, k);
  }

  lemma {:induction false} WrittenOrder(db: Db, req: Request)
    requires Inv(db) && req.parent in db.nodes && WriteUnder(db, req).1.Ok?
    ensures var after, c := WriteUnder(db, req).0.nodes, WriteUnder(db, req).1.value;
            c in after && after[c].order == OrderFor(db.nodes, req)
  {
    WriteSplits(db, req);
  }

  lemma {:induction false} LargestOrder(nodes: Nodes, p: NodeId, k: NodeId)
    requires k in nodes && nodes[k].parent == Some(p)
    requires forall x :: x in nodes && nodes[x].parent == Some(p) ==> nodes[x].order <= nodes[k].order
    ensures MaxOrder(nodes, p) == nodes[k].order
  {
    MaxOrderIsMaximum(nodes, p);
    assert k in Kids(nodes, p);
    var m :| m in Kids(nodes, p) && nodes[m].order == MaxOrder(nodes, p);
  }

  lemma {:induction false} FirstOrder(db: Db, req: Request)
    requires Inv(db) && req.parent in db.nodes && WriteUnder(db, req).1.Ok? && req.order == None
    requires forall x :: x in db.nodes ==> db.nodes[x].parent != Some(req.parent)
    ensures var after, c := WriteUnder(db, req).0.nodes, WriteUnder(db, req).1.value;
            c in after && after[c].order == 0
  {
    WrittenOrder(db, req);
    MaxOrderIsMaximum(db.nodes, req.parent);
    assert Kids(db.nodes, req.parent) == {};
  }

  /** The summary of the parent is tested first, the names of type and status last. */
  lemma {:induction false} WriteOutcome(db: Db, svc: Service, req: Request)
    requires Inv(db) && Sound(db) && CacheOk(db.nodes, svc)
    ensures var result := Write(db, svc, req).result;
            if req.parent !in db.nodes then result == Err(NodeNotFound)
            else if svc.scope.Some? && svc.scope.value !in Path(db.nodes, req.parent)
                    && !svc.policy.canReadOutside && svc.policy.errorOnViolation
            then result == Err(ScopeViolation)
            else if Empty(db.nodes[req.parent].summary) then result == Err(NoSummary)
            else if req.kind == None || req.status == None then result == Err(BadEnum)
            else result.Ok?
  {
    CacheAgrees(db.nodes, svc, req.parent);
  }

  /** A group is made whenever the parent has max_children children already, and at least two. */
  ghost predicate Grouping(db: Db, p: NodeId)
    requires p in db.nodes && db.nodes[p].tree in db.trees
  {
    var k := |set x | x in db.nodes && db.nodes[x].parent == Some(p)|;
    k >= db.trees[db.nodes[p].tree].maxChildren && k >= 2
  }

  lemma {:induction false} GroupingIs(db: Db, p: NodeId)
    requires p in db.nodes && db.nodes[p].tree in db.trees
    ensures Grouping(db, p) <==> Reclusters(db, p)
  {
    ChildCount(db.nodes, p);
    assert Kids(db.nodes, p) == set x | x in db.nodes && db.nodes[x].parent == Some(p);
  }

  /** The record of the tree: the cursor is on the new node, and one more node is counted, or two
      if a group was made; nothing else about any tree changes. */
  lemma {:induction false} WriteRecords(db: Db, req: Request)
    requires Inv(db) && req.parent in db.nodes && WriteUnder(db, req).1.Ok?
    ensures var after, c, t := WriteUnder(db, req).0, WriteUnder(db, req).1.value, db.nodes[req.parent].tree;
            && t in db.trees && after.nextTree == db.nextTree
            && after.trees
                 == db.trees[t := db.trees[t].(cursor := c, total := db.trees[t].total + Made(db, req.parent))]
  {
    RoomRecords(db, req.parent);
  }

  /** The new node itself, and the group if there is one. */
  ghost function Made(db: Db, p: NodeId): nat
    requires p in db.nodes && db.nodes[p].tree in db.trees
  {
    if Grouping(db, p) then 2 else 1
  }

  lemma {:induction false} RoomRecords(db: Db, p: NodeId)
    requires Inv(db) && p in db.nodes && db.nodes[p].tree in db.trees && Truthy(db.nodes[p].summary)
    ensures var t := db.nodes[p].tree;
            && MakeRoom(db, p).trees == db.trees[t := db.trees[t].(total := db.trees[t].total + Made(db, p) - 1)]
            && MakeRoom(db, p).nextTree == db.nextTree
  {
    GroupingIs(db, p);
    ReclusterIs(db, p);
  }

  /** Whether the same service can write below the new node, or save a checkpoint there, is
      decided by the summary it gave it. */
  lemma {:induction false} SummaryDecides(db: Db, svc: Service, req: Request, next: Request, payload: string,
                                          progress: string)
    requires Inv(db) && Sound(db) && CacheOk(db.nodes, svc) && Write(db, svc, req).result.Ok?
    requires next.parent == Write(db, svc, req).result.value
    ensures var step := Write(db, svc, req);
            && Sound(step.db)
            && (Write(step.db, step.svc, next).result == Err(NoSummary) <==> Empty(req.summary))
            && (WriteCheckpoint(step.db, step.svc, db.nodes[req.parent].tree, payload, progress).result.Ok? <==>
                  !Empty(req.summary))
  {
    var step := Write(db, svc, req);
    WriteKeeps(db, svc, req);
    InvSound(step.db);
    CacheAgrees(db.nodes, svc, req.parent);
    CacheSurvives(db, step.db, step.svc);
    CacheAgrees(step.db.nodes, step.svc, step.result.value);
    NewChildFetched(db, svc, req);
    WrittenRow(db, req);
    WriteRecords(db, req);
  }

  // ------------------------------------------------------------------
  // Reclustering
  // ------------------------------------------------------------------

  /** The group takes its type from the first child and stands in front; the first half hangs
      below it, numbered from 0, the second half behind it, numbered from 1. */
  lemma {:induction false} GroupRows(db: Db, p: NodeId, x: NodeId)
    requires Inv(db) && p in db.nodes && Grouping(db, p) && x in db.nodes
    ensures var before, after, g, kids := db.nodes, Recluster(db, p).nodes, db.nextNode, Children(db.nodes, p);
            var half := |kids| / 2;
            && g !in before && after.Keys == before.Keys + {g} && half > 0 && kids[0] in before
            && after[g] == Node(before[p].tree, Some(p), before[kids[0]].kind,
                                Some("Grouped " + Digits(half) + " nodes for viewport efficiency"), None, Complete,
                                before[p].depth + 1, 0)
            && (forall i :: 0 <= i < half && x == kids[i] ==> after[x] == before[x].(parent := Some(g), order := i))
            && (forall i :: half <= i < |kids| && x == kids[i] ==> after[x] == before[x].(order := i - half + 1))
            && (before[x].parent != Some(p) ==> after[x] == before[x])
  {
    var kids := Children(db.nodes, p);
    GroupingIs(db, p);
    GroupedIsRegrouped(db.nodes, p, |kids| / 2, db.nextNode, GroupNode(db, p, kids));
  }

  /** The number in the group's summary reads as the number of the moved children. */
  lemma {:induction false} DigitsRead(n: nat)
    ensures Digits(n) != "" && (forall i :: 0 <= i < |Digits(n)| ==> '0' <= Digits(n)[i] <= '9')
    ensures Reading(Digits(n)) == n && (Digits(n)[0] == '0' ==> n == 0)
  {
    DigitReads(n % 10);
    if n >= 10 {
      DigitsRead(n / 10);
      var first, d := Digits(n / 10), "0123456789"[n % 10];
      assert Digits(n) == first + [d];
      ReadingEnds(first, d);
    } else {
      ReadingEnds("", "0123456789"[n]);
    }
  }

  lemma {:induction false} DigitReads(k: nat)
    requires k < 10
    ensures '0' <= "0123456789"[k] <= '9' && "0123456789"[k] as int == '0' as int + k
  {
  }

  lemma {:induction false} ReadingEnds(s: string, d: char)
    ensures Reading(s + [d]) == 10 * Reading(s) + (d as int - '0' as int)
  {
    assert (s + [d])[..|s|] == s;
  }

  function Reading(s: string): int {
    if s == "" then 0 else 10 * Reading(s[..|s| - 1]) + (s[|s| - 1] as int - '0' as int)
  }

  // ------------------------------------------------------------------
  // Reading and navigation
  // ------------------------------------------------------------------

  /** Reading wakes a pending node and moves the cursor, and does nothing else. */
  lemma {:induction false} ReadEffect(db: Db, svc: Service, n: NodeId)
    requires Sound(db) && Read(db, svc, n).result.Ok?
    ensures n in db.nodes && db.nodes[n].tree in db.trees
    ensures var row := db.nodes[n].(status := if db.nodes[n].status == Pending then Active else db.nodes[n].status);
            && Read(db, svc, n).result == Ok(row)
            && Read(db, svc, n).db
                 == db.(nodes := db.nodes[n := row],
                        trees := db.trees[row.tree := db.trees[row.tree].(cursor := n)])
  {
  }

  /** The viewport shows the children in order and the way from the root; the cursor moves. */
  lemma {:induction false} NavigateShows(db: Db, svc: Service, n: NodeId)
    requires Inv(db) && Sound(db) && Navigate(db, svc, n).result.Ok?
    ensures n in db.nodes && db.nodes[n].tree in db.trees
    ensures var view, nodes := Navigate(db, svc, n).result.value, db.nodes;
            && view.current == n && view.parent == nodes[n].parent
            && ListsChildren(nodes, n, view.children) && LeadsTo(nodes, n, view.breadcrumb)
    ensures var t := db.nodes[n].tree;
            Navigate(db, svc, n).db == db.(trees := db.trees[t := db.trees[t].(cursor := n)])
  {
    ChildrenListed(db.nodes, n);
    var kids := Children(db.nodes, n);
    forall i, j | 0 <= i < j < |kids| ensures kids[i] in db.nodes && kids[j] in db.nodes {
      assert Before(db.nodes, kids[i], kids[j]);
    }
    PathFollowsParents(db.nodes, n);
  }

  /** Exactly the children, by order and then by age. */
  ghost predicate ListsChildren(nodes: Nodes, p: NodeId, kids: seq<NodeId>) {
    && (forall x :: x in kids <==> x in nodes && nodes[x].parent == Some(p))
    && (forall i, j :: 0 <= i < j < |kids| ==>
          && kids[i] in nodes && kids[j] in nodes
          && (nodes[kids[i]].order < nodes[kids[j]].order
              || (nodes[kids[i]].order == nodes[kids[j]].order && kids[i] < kids[j])))
  }

  /** From a node without parent along parent links down to n. */
  ghost predicate LeadsTo(nodes: Nodes, n: NodeId, path: seq<NodeId>) {
    && path != [] && path[|path| - 1] == n
    && (forall i :: 0 <= i < |path| ==> path[i] in nodes)
    && nodes[path[0]].parent == None
    && (forall i :: 0 < i < |path| ==> nodes[path[i]].parent == Some(path[i - 1]))
  }

  /** Only one such path exists; the ancestry query and the scope test ask for the nodes on it. */
  lemma {:induction false} AncestryIs(nodes: Nodes, n: NodeId, path: seq<NodeId>, a: NodeId)
    requires Forest(nodes) && n in nodes && LeadsTo(nodes, n, path)
    ensures Path(nodes, n) == path && (Within(nodes, n, a) <==> a in path)
    ensures Inside(nodes, None, n) && (Inside(nodes, Some(a), n) <==> a in path)
    decreases |path|
  {
    var k := |path| - 1;
    var above := path[..k];
    assert k > 0 ==> nodes[path[k]].parent == Some(path[k - 1]);
    if above != [] {
      ParentRanks(nodes, n);
      assert forall i :: 0 <= i < k ==> above[i] == path[i];
      AncestryIs(nodes, above[|above| - 1], above, a);
      assert path == above + [n];
    }
  }

  // ------------------------------------------------------------------
  // Tasks, checkpoints, suspending and resuming
  // ------------------------------------------------------------------

  /** The task node: pending, with the request as its text and the task as its summary. */
  lemma {:induction false} TaskRow(db: Db, svc: Service, n: NodeId, payload: string, task: string)
    requires Inv(db) && Sound(db) && CacheOk(db.nodes, svc) && Recurse(db, svc, n, payload, task).result.Ok?
    ensures var step := Recurse(db, svc, n, payload, task);
            var after, c := step.db.nodes, step.result.value;
            && n in db.nodes && c !in db.nodes && c in after
            && after[c].kind == Task && after[c].status == Pending && after[c].parent == Some(n)
            && after[c].content == Some(payload) && after[c].summary == Some(Start(task, 500))
  {
    WrittenRow(db, Request(n, Some(Task), Some(Pending), Some(payload), Some(Prefix(task, 500)), None));
    StartIs(task, 500);
  }

  function Start(s: string, k: nat): string {
    s[..if |s| < k then |s| else k]
  }

  lemma {:induction false} StartIs(s: string, k: nat)
    ensures Prefix(s, k) == Start(s, k)
  {
    assert s[..|s|] == s;
  }

  /** The checkpoint: complete, below the old cursor, which moves to it. */
  lemma {:induction false} CheckpointRow(db: Db, svc: Service, t: TreeId, payload: string, progress: string)
    requires Inv(db) && Sound(db) && WriteCheckpoint(db, svc, t, payload, progress).result.Ok?
    ensures t in db.trees && db.trees[t].cursor in db.nodes && db.nodes[db.trees[t].cursor].tree == t
    ensures var step := WriteCheckpoint(db, svc, t, payload, progress);
            var c := step.result.value;
            && c !in db.nodes && c in step.db.nodes
            && step.db.nodes[c].kind == Checkpoint && step.db.nodes[c].status == Complete
            && step.db.nodes[c].parent == Some(db.trees[t].cursor)
            && step.db.nodes[c].content == Some(payload) && step.db.nodes[c].summary == Some(Start(progress, 500))
            && t in step.db.trees && step.db.trees[t].cursor == c && step.db.trees[t].status == db.trees[t].status
  {
    assert TreeOk(db, t);
    var req := Request(db.trees[t].cursor, Some(Checkpoint), Some(Complete), Some(payload),
                       Some(Prefix(progress, 500)), None);
    WrittenRow(db, req);
    WriteRecords(db, req);
    StartIs(progress, 500);
  }

  /** Suspending saves a checkpoint and sets the status; nothing else tells it from a checkpoint. */
  lemma {:induction false} SuspendEffect(db: Db, svc: Service, t: TreeId, payload: string)
    requires Inv(db) && Sound(db)
    ensures var saved, step := WriteCheckpoint(db, svc, t, payload, "Tree suspended by user or system."),
                               Suspend(db, svc, t, payload);
            && step.result == saved.result && step.svc == saved.svc
            && (step.result.Err? ==> step.db == saved.db)
            && (step.result.Ok? ==>
                  && t in saved.db.trees
                  && step.db == saved.db.(trees := saved.db.trees[t := saved.db.trees[t].(status := TreeSuspended)]))
  {
    if WriteCheckpoint(db, svc, t, payload, SUSPENDED).result.Ok? {
      CheckpointRow(db, svc, t, payload, SUSPENDED);
    }
  }

  /** Resuming needs a tree that is active or suspended and a cursor the service may navigate to;
      it leaves the tree active. */
  lemma {:induction false} ResumeSucceedsIff(db: Db, svc: Service, t: TreeId)
    requires Inv(db) && Sound(db) && CacheOk(db.nodes, svc)
    ensures t !in db.trees ==> Resume(db, svc, t) == Step(db, svc, Err(TreeNotFound))
    ensures t in db.trees && db.trees[t].status !in {TreeActive, TreeSuspended} ==>
              Resume(db, svc, t) == Step(db, svc, Err(NotResumable))
    ensures t in db.trees && db.trees[t].status in {TreeActive, TreeSuspended} ==>
              var cursor, step := db.trees[t].cursor, Resume(db, svc, t);
              && cursor in db.nodes && t in step.db.trees && step.db.trees[t].status == TreeActive
              && (step.result.Ok? <==> Navigate(db, svc, cursor).result.Ok?)
              && (step.result.Err? ==> step.result.error == ScopeViolation)
  {
    if t in db.trees {
      var cursor := db.trees[t].cursor;
      assert TreeOk(db, t);
      NavigateKeeps(db, svc, cursor);
      NavigateSucceedsIff(db, svc, cursor);
      CacheAgrees(db.nodes, svc, cursor);
      if db.nodes[cursor].parent.Some? {
        CacheAgrees(db.nodes, GetNode(db.nodes, svc, cursor).0, db.nodes[cursor].parent.value);
      }
    }
  }

  /** So a suspended tree can be resumed by whoever may navigate to its checkpoint. */
  lemma {:induction false} SuspendedIsResumable(db: Db, svc: Service, t: TreeId, payload: string, other: Service)
    requires Inv(db) && Sound(db) && CacheOk(db.nodes, other) && Suspend(db, svc, t, payload).result.Ok?
    ensures var step := Suspend(db, svc, t, payload);
            && Sound(step.db) && t in step.db.trees && step.db.trees[t].status == TreeSuspended
            && var resumed := Resume(step.db, other, t);
            && resumed.result != Err(NotResumable)
            && (resumed.result.Ok? <==> Navigate(step.db, other, step.result.value).result.Ok?)
            && t in resumed.db.trees && resumed.db.trees[t].status == TreeActive
  {
    var step := Suspend(db, svc, t, payload);
    SuspendKeeps(db, svc, t, payload);
    InvSound(step.db);
    SuspendEffect(db, svc, t, payload);
    CheckpointRow(db, svc, t, payload, SUSPENDED);
    CacheSurvives(db, step.db, other);
    ResumeSucceedsIff(step.db, other, t);
  }

  /** k is the newest checkpoint below n. */
  ghost predicate NewestCheckpoint(nodes: Nodes, n: NodeId, k: NodeId) {
    && k in nodes && nodes[k].parent == Some(n) && nodes[k].kind == Checkpoint
    && forall x :: x in nodes && nodes[x].parent == Some(n) && nodes[x].kind == Checkpoint ==> x <= k
  }

  /** The answer comes from the newest checkpoint below the cursor, if that has a text. */
  lemma {:induction false} ResumeAnswers(db: Db, svc: Service, t: TreeId, text: string)
    requires Inv(db) && Sound(db) && Resume(db, svc, t).result.Ok?
    ensures t in db.trees
    ensures var cursor, answer := db.trees[t].cursor, Resume(db, svc, t).result.value;
            && answer.0.current == cursor
            && (answer.1 == Some(text) <==>
                  text != "" && exists k :: NewestCheckpoint(db.nodes, cursor, k) && db.nodes[k].content == Some(text))
  {
    var cursor := db.trees[t].cursor;
    var S := CheckpointsUnder(db.nodes, cursor);
    if S != {} {
      var k := Newest(S);
      forall x | x in db.nodes && db.nodes[x].parent == Some(cursor) && db.nodes[x].kind == Checkpoint ensures x <= k {
        assert x in S;
      }
      assert k in S && NewestCheckpoint(db.nodes, cursor, k);
    }
    if k :| NewestCheckpoint(db.nodes, cursor, k) {
      assert k in S;
    }
  }

  /** A checkpoint is what a later resume returns once someone has navigated back above it. */
  lemma {:induction false} CheckpointComesBack(db: Db, svc: Service, t: TreeId, payload: string, progress: string,
                                               other: Service)
    requires Inv(db) && Sound(db) && CacheOk(db.nodes, other) && payload != ""
    requires WriteCheckpoint(db, svc, t, payload, progress).result.Ok? && t in db.trees
    requires db.trees[t].status in {TreeActive, TreeSuspended}
    ensures var saved, cursor := WriteCheckpoint(db, svc, t, payload, progress), db.trees[t].cursor;
            && Sound(saved.db)
            && var back := Navigate(saved.db, other, cursor);
            && Sound(back.db)
            && (back.result.Ok? ==>
                  var resumed := Resume(back.db, back.svc, t).result;
                  resumed.Ok? && resumed.value.0.current == cursor && resumed.value.1 == Some(payload))
  {
    var saved, cursor := WriteCheckpoint(db, svc, t, payload, progress), db.trees[t].cursor;
    CheckpointKeeps(db, svc, t, payload, progress);
    InvSound(saved.db);
    CheckpointRow(db, svc, t, payload, progress);
    CacheSurvives(db, saved.db, other);
    assert Kept(db, saved.db, cursor);
    NavigateKeeps(saved.db, other, cursor);
    var back := Navigate(saved.db, other, cursor);
    InvSound(back.db);
    if back.result.Ok? {
      NavigateShows(saved.db, other, cursor);
      NavigateAgain(saved.db, other, cursor);
      NavigateKeepsCache(saved.db, other, cursor);
      ResumeSucceedsIff(back.db, back.svc, t);
      NewestIsSaved(db, svc, t, payload, progress);
      ResumeAnswers(back.db, back.svc, t, payload);
    }
  }

  lemma {:induction false} NavigateAgain(db: Db, svc: Service, n: NodeId)
    requires Inv(db) && Sound(db) && CacheOk(db.nodes, svc) && Navigate(db, svc, n).result.Ok?
    ensures var step := Navigate(db, svc, n);
            Sound(step.db) && Navigate(step.db, step.svc, n).result.Ok?
  {
    var step := Navigate(db, svc, n);
    NavigateKeeps(db, svc, n);
    InvSound(step.db);
    NavigateKeepsCache(db, svc, n);
    NavigateKeepsService(db, svc, n);
    NavigateSucceedsIff(db, svc, n);
    NavigateSucceedsIff(step.db, step.svc, n);
  }

  lemma {:induction false} NewestIsSaved(db: Db, svc: Service, t: TreeId, payload: string, progress: string)
    requires Inv(db) && Sound(db) && WriteCheckpoint(db, svc, t, payload, progress).result.Ok? && t in db.trees
    ensures var saved := WriteCheckpoint(db, svc, t, payload, progress);
            NewestCheckpoint(saved.db.nodes, db.trees[t].cursor, saved.result.value)
  {
    CheckpointKeeps(db, svc, t, payload, progress);
    CheckpointRow(db, svc, t, payload, progress);
    assert Shape(WriteCheckpoint(db, svc, t, payload, progress).db);
  }

  // ------------------------------------------------------------------
  // New trees
  // ------------------------------------------------------------------

  /** The four rows of a new tree and its record, whose cursor is on the root. */
  lemma {:induction false} TreeRows(db: Db, description: string, maxChildren: int)
    ensures var after, t, r := CreateTree(db, description, maxChildren), db.nextTree, db.nextNode;
            && after.nodes == db.nodes
                 [r := Node(t, None, Root, Some(Start(description, 500)), Some(description), Active, 0, 0)]
                 [r + 1 := Node(t, Some(r), Knowledge, Some("Ingested documents and external knowledge sources."),
                                None, Active, 1, 0)]
                 [r + 2 := Node(t, Some(r), Finding,
                                Some("Agent's intermediate findings, reasoning, and discovered facts."),
                                None, Active, 1, 1)]
                 [r + 3 := Node(t, Some(r), Output, Some("Assembled output document sections."), None, Pending, 1, 2)]
            && after.trees == db.trees[t := Tree(description, r, r + 3, r, 4, maxChildren, TreeActive)]
            && after.nextNode == r + 4 && after.nextTree == t + 1
  {
    StartIs(description, 500);
  }

  // ------------------------------------------------------------------
  // Collecting
  // ------------------------------------------------------------------

  /** The walk collects the complete nodes with a text below n, and n itself. */
  lemma {:induction false} CollectExactly(nodes: Nodes, n: NodeId, path: seq<NodeId>, x: NodeId)
    requires Forest(nodes) && n in nodes && x in nodes && LeadsTo(nodes, x, path)
    ensures x in Collect(nodes, n) <==> n in path && nodes[x].status == Complete && !Empty(nodes[x].content)
  {
    CollectFinds(nodes, n, x);
    AncestryIs(nodes, x, path, n);
  }

  /** x is printed before y: y is below x, or they hang below two siblings in this order. */
  ghost predicate Precedes(nodes: Nodes, x: NodeId, y: NodeId)
    requires Forest(nodes) && x in nodes && y in nodes
  {
    || (x != y && Within(nodes, y, x))
    || (exists j, k :: Siblings(nodes, j, k) && Within(nodes, x, j) && Within(nodes, y, k))
  }

  ghost predicate Siblings(nodes: Nodes, j: NodeId, k: NodeId) {
    && j in nodes && k in nodes && nodes[j].parent == nodes[k].parent && nodes[j].parent.Some?
    && (nodes[j].order < nodes[k].order || (nodes[j].order == nodes[k].order && j < k))
  }

  /** Parents come before what is below them, siblings in their order with all that is below them. */
  lemma {:induction false} CollectOrdered(nodes: Nodes, n: NodeId, i: nat, j: nat)
    requires Forest(nodes) && n in nodes && i < j < |Collect(nodes, n)|
    ensures Collect(nodes, n)[i] in nodes && Collect(nodes, n)[j] in nodes
    ensures Precedes(nodes, Collect(nodes, n)[i], Collect(nodes, n)[j])
    decreases Down(nodes, n)
  {
    var all, own, kids := Collect(nodes, n), Own(nodes, n), Children(nodes, n);
    var parts := Parts(nodes, n, kids);
    CollectFinds(nodes, n, all[i]);
    CollectFinds(nodes, n, all[j]);
    assert all[i] in all && all[j] in all;
    if i < |own| {
      CollectDistinct(nodes, n);
    } else {
      var a, b, k, l := FlattenPlaces(parts, i - |own|, j - |own|);
      ParentRanks(nodes, kids[a]);
      ParentRanks(nodes, kids[b]);
      if a == b {
        CollectOrdered(nodes, kids[a], k, l);
      } else {
        ChildrenListed(nodes, n);
        assert Before(nodes, kids[a], kids[b]) && Siblings(nodes, kids[a], kids[b]);
        CollectFinds(nodes, kids[a], all[i]);
        CollectFinds(nodes, kids[b], all[j]);
      }
    }
  }

  /** Two places of a flattened list lie in two parts, or in order in one. */
  lemma {:induction false} FlattenPlaces(parts: seq<seq<NodeId>>, i: nat, j: nat)
    returns (a: nat, b: nat, k: nat, l: nat)
    requires i < j < |Flatten(parts)|
    ensures a <= b < |parts| && k < |parts[a]| && l < |parts[b]| && (a == b ==> k < l)
    ensures parts[a][k] == Flatten(parts)[i] && parts[b][l] == Flatten(parts)[j]
  {
    var n := |parts[0]|;
    if i >= n {
      a, b, k, l := FlattenPlaces(parts[1..], i - n, j - n);
      a, b := a + 1, b + 1;
    } else if j < n {
      a, b, k, l := 0, 0, i, j;
    } else {
      a, k := 0, i;
      b, l := FlattenPlace(parts[1..], j - n);
      b := b + 1;
    }
  }

  lemma {:induction false} FlattenPlace(parts: seq<seq<NodeId>>, j: nat) returns (b: nat, l: nat)
    requires j < |Flatten(parts)|
    ensures b < |parts| && l < |parts[b]| && parts[b][l] == Flatten(parts)[j]
  {
    if j < |parts[0]| {
      b, l := 0, j;
    } else {
      b, l := FlattenPlace(parts[1..], j - |parts[0]|);
      b := b + 1;
    }
  }
}
