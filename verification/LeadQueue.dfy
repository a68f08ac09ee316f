/** The lead queue: its rows, the service that updates them in place, and the protocol by
    which any number of pollers and call tasks share them. */
module LeadQueue {

  import opened Basics

  type EntryId = nat

  datatype Status = Pending | Queued | Calling | Completed | Failed

  datatype Row = Row(company: nat, lead: string, priority: int, status: Status, attempts: nat, maxAttempts: nat)

  /** Ids are handed out in creation order, so they also stand for created_at. */
  type Rows = map<EntryId, Row>

  const DEFAULT_MAX_ATTEMPTS: nat := 3

  // ------------------------------------------------------------------
  // Row updates
  // ------------------------------------------------------------------

  predicate Known(rows: Rows, company: nat, lead: string) {
    exists e :: e in rows && rows[e].company == company && rows[e].lead == lead
  }

  function NewRow(company: nat, lead: string, priority: int): Row {
    Row(company, lead, priority, Pending, 0, DEFAULT_MAX_ATTEMPTS)
  }

  predicate Candidate(rows: Rows, company: Option<nat>, locked: set<EntryId>, e: EntryId) {
    && e in rows && e !in locked && rows[e].status == Pending
    && (company.None? || rows[e].company == company.value)
  }

  /** `ORDER BY priority ASC, created_at ASC`. */
  predicate Sooner(rows: Rows, a: EntryId, b: EntryId)
    requires a in rows && b in rows
  {
    rows[a].priority < rows[b].priority || (rows[a].priority == rows[b].priority && a < b)
  }

  /** The row `FOR UPDATE SKIP LOCKED` returns: the soonest pending row no one else locks. */
  ghost predicate IsNext(rows: Rows, company: Option<nat>, locked: set<EntryId>, e: EntryId) {
    && Candidate(rows, company, locked, e)
    && forall x :: Candidate(rows, company, locked, x) && x != e ==> Sooner(rows, e, x)
  }

  function Picked(row: Row): Row {
    row.(status := Queued, attempts := row.attempts + 1)
  }

  /** Back to pending while attempts remain, else failed; the present status is not looked at. */
  function AfterFailure(row: Row): Row {
    row.(status := if row.attempts < row.maxAttempts then Pending else Failed)
  }

  class LeadQueueService {
    var rows: Rows
    var nextId: EntryId

    ghost predicate Valid()
      reads this
    {
      && (forall e :: e in rows ==> e < nextId)
      && Unique(rows)
    }

    constructor ()
      ensures Valid() && rows == map[] && nextId == 0
    {
      rows, nextId := map[], 0;
    }

    /** INSERT ... ON CONFLICT DO NOTHING. */
    method EnqueueLead(company: nat, lead: string, priority: int) returns (r: Option<EntryId>)
      requires Valid()
      modifies this
      ensures Valid()
      ensures if Known(old(rows), company, lead) then r == None && rows == old(rows) && nextId == old(nextId)
              else r == Some(old(nextId)) && nextId == old(nextId) + 1
                   && rows == old(rows)[old(nextId) := NewRow(company, lead, priority)]
      ensures r == None <==> exists e :: e in old(rows) && old(rows)[e].company == company && old(rows)[e].lead == lead
      ensures r.Some? ==> r.value !in old(rows)
      ensures r.Some? ==> rows == old(rows)[r.value := Row(company, lead, priority, Pending, 0, 3)]
    {
      if exists e :: e in rows && rows[e].company == company && rows[e].lead == lead {
        return None;
      }
      var id := nextId;
      rows := rows[id := NewRow(company, lead, priority)];
      nextId := id + 1;
      return Some(id);
    }

    method PickNextLead(company: Option<nat>, locked: set<EntryId>) returns (r: Option<EntryId>)
      requires Valid()
      modifies this`rows
      ensures Valid()
      ensures match r
              case None => rows == old(rows) && forall e :: !Candidate(rows, company, locked, e)
              case Some(e) => IsNext(old(rows), company, locked, e) && rows == old(rows)[e := Picked(old(rows)[e])]
      ensures r == None <==> forall x :: x in old(rows) ==> !MayGo(old(rows)[x], x, company, locked)
      ensures r.Some? ==> PickedSoonest(old(rows), company, locked, r.value, rows)
    {
      var candidates := set e | e in rows && Candidate(rows, company, locked, e);
      ghost var before := rows;
      assert forall x :: x in rows ==> (MayGo(rows[x], x, company, locked) <==> Candidate(rows, company, locked, x));
      if candidates == {} {
        assert forall e :: Candidate(rows, company, locked, e) ==> e in candidates;
        return None;
      }
      NextExists(rows, candidates);
      ghost var soonest :| Soonest(rows, candidates, soonest);
      var e :| e in candidates && forall x :: x in candidates && x != e ==> Sooner(rows, e, x);
      assert forall x :: Candidate(rows, company, locked, x) ==> x in candidates;
      rows := rows[e := Picked(rows[e])];
      NextGoes(before, company, locked, e);
      return Some(e);
    }

    method MarkCalling(e: EntryId)
      requires Valid()
      modifies this`rows
      ensures Valid()
      ensures rows == if e in old(rows) then old(rows)[e := old(rows)[e].(status := Calling)] else old(rows)
    {
      if e in rows {
        rows := rows[e := rows[e].(status := Calling)];
      }
    }

    method MarkCompleted(e: EntryId)
      requires Valid()
      modifies this`rows
      ensures Valid()
      ensures rows == if e in old(rows) then old(rows)[e := old(rows)[e].(status := Completed)] else old(rows)
    {
      if e in rows {
        rows := rows[e := rows[e].(status := Completed)];
      }
    }

    method MarkFailed(e: EntryId)
      requires Valid()
      modifies this`rows
      ensures Valid()
      ensures rows == if e in old(rows) then old(rows)[e := AfterFailure(old(rows)[e])] else old(rows)
      ensures e in rows ==>
                rows[e].status == if old(rows)[e].attempts < old(rows)[e].maxAttempts then Pending else Failed
    {
      if e !in rows {
        return;
      }
      var status := Failed;
      if rows[e].attempts < rows[e].maxAttempts {
        status := Pending;
      }
      rows := rows[e := rows[e].(status := status)];
    }
  }

  /** A waiting lead of the company, if one is asked for, that no one else has locked. */
  predicate MayGo(row: Row, e: EntryId, company: Option<nat>, locked: set<EntryId>) {
    row.status == Pending && e !in locked && (company.Some? ==> row.company == company.value)
  }

  /** Of those the one with the lowest priority number goes, of several the oldest; it is queued
      with one more attempt and no other row changes. */
  predicate PickedSoonest(rows: Rows, company: Option<nat>, locked: set<EntryId>, e: EntryId, after: Rows) {
    && e in rows && MayGo(rows[e], e, company, locked)
    && (forall x :: x in rows && x != e && MayGo(rows[x], x, company, locked) ==>
          rows[e].priority < rows[x].priority || (rows[e].priority == rows[x].priority && e < x))
    && after == rows[e := rows[e].(status := Queued, attempts := rows[e].attempts + 1)]
  }

  lemma {:induction false} NextGoes(rows: Rows, company: Option<nat>, locked: set<EntryId>, e: EntryId)
    requires IsNext(rows, company, locked, e)
    ensures PickedSoonest(rows, company, locked, e, rows[e := Picked(rows[e])])
  {
    forall x | x in rows && x != e && MayGo(rows[x], x, company, locked)
      ensures rows[e].priority < rows[x].priority || (rows[e].priority == rows[x].priority && e < x)
    {
      assert Candidate(rows, company, locked, x);
    }
  }

  lemma {:induction false} NextExists(rows: Rows, S: set<EntryId>)
    requires S != {} && S <= rows.Keys
    ensures exists e :: Soonest(rows, S, e)
  {
    var key := (e: nat) => if e in rows then rows[e].priority else 0;
    ForemostExists(S, key);
    var m :| Foremost(S, key, m);
    assert Soonest(rows, S, m);
  }

  ghost predicate Soonest(rows: Rows, S: set<EntryId>, e: EntryId)
    requires S <= rows.Keys
  {
    e in S && forall x :: x in S && x != e ==> Sooner(rows, e, x)
  }

  ghost predicate Unique(rows: Rows) {
    forall d, e :: d in rows && e in rows && rows[d].company == rows[e].company && rows[d].lead == rows[e].lead ==>
      d == e
  }

  // ------------------------------------------------------------------
  // The protocol
  // ------------------------------------------------------------------

  const MAX_CONCURRENT: nat := 5

  /** A poller of one process: idle, past the cap check, or holding a pick whose task is not
      running yet. */
  datatype Poller = Idle | Cleared | Dispatching(entry: EntryId)

  /** A call task: registered, linked to a voice session and being placed, connected, being
      placed although its call is over already, or on its way out. */
  datatype Phase = Started | Linked | Live | Overtaken | Leaving

  datatype Task = Task(entry: EntryId, phase: Phase)

  /** Who is between a pick and the mark that ends it. */
  datatype Owner = OfPoller(poller: nat) | OfTask(task: nat) | OfCall

  datatype State = State(
    rows: Rows,
    nextId: EntryId,
    pollers: map<nat, Poller>,
    tasks: map<nat, Task>,
    nextTask: nat,
    talking: set<EntryId>,         // connected calls whose task has ended
    active: set<EntryId>,          // `_active_calls`
    owner: map<EntryId, Owner>)    // bookkeeping of the proof, read by no step

  datatype Step =
    | Enqueue(newCompany: nat, lead: string, priority: int)
    | Check(poller: nat)
    | Pick(poller: nat, company: Option<nat>, locked: set<EntryId>, entry: EntryId)
    | PickNothing(poller: nat, company: Option<nat>, locked: set<EntryId>)
    | Start(poller: nat)
    | Link(task: nat)       // mark_calling
    | Fail(task: nat)       // mark_failed: before linking, or because the placement raised
    | Overtake(task: nat)   // mark_completed by the voice session while the task awaits the placement
    | Connect(task: nat)
    | Complete(task: nat)   // mark_completed while the task is still closing
    | Finish(task: nat)
    | HangUp(entry: EntryId) // mark_completed after the task has ended

  predicate AtPhase(s: State, t: nat, phase: Phase) {
    t in s.tasks && s.tasks[t].phase == phase
  }

  ghost predicate Enabled(s: State, step: Step) {
    match step
    case Enqueue(_, _, _) => true
    case Check(w) => w in s.pollers && s.pollers[w] == Idle && |s.active| < MAX_CONCURRENT
    case Pick(w, company, locked, e) => w in s.pollers && s.pollers[w] == Cleared && IsNext(s.rows, company, locked, e)
    case PickNothing(w, company, locked) =>
      w in s.pollers && s.pollers[w] == Cleared && forall e :: !Candidate(s.rows, company, locked, e)
    case Start(w) => w in s.pollers && s.pollers[w].Dispatching?
    case Link(t) => AtPhase(s, t, Started)
    case Fail(t) => AtPhase(s, t, Started) || AtPhase(s, t, Linked) || AtPhase(s, t, Overtaken)
    case Overtake(t) => AtPhase(s, t, Linked)
    case Connect(t) => AtPhase(s, t, Linked)
    case Complete(t) => AtPhase(s, t, Live)
    case Finish(t) => AtPhase(s, t, Live) || AtPhase(s, t, Overtaken) || AtPhase(s, t, Leaving)
    case HangUp(e) => e in s.talking
  }

  /** The task has yet to mark the lead it was given. */
  predicate Holds(phase: Phase) {
    phase != Overtaken && phase != Leaving
  }

  /** The task of the step changes phase and its row is updated. */
  function Advance(s: State, t: nat, phase: Phase, row: Row): State
    requires t in s.tasks
  {
    var e := s.tasks[t].entry;
    s.(tasks := s.tasks[t := Task(e, phase)], rows := s.rows[e := row],
       owner := if Holds(phase) then s.owner else s.owner - {e})
  }

  predicate OfOneTask(step: Step) {
    step.Link? || step.Fail? || step.Overtake? || step.Connect? || step.Complete?
  }

  function PhaseAfter(step: Step): Phase
    requires OfOneTask(step)
  {
    match step
    case Link(_) => Linked
    case Fail(_) => Leaving
    case Overtake(_) => Overtaken
    case Connect(_) => Live
    case Complete(_) => Leaving
  }

  function RowAfter(step: Step, row: Row): Row
    requires OfOneTask(step)
  {
    match step
    case Link(_) => row.(status := Calling)
    case Fail(_) => AfterFailure(row)
    case Overtake(_) => row.(status := Completed)
    case Connect(_) => row
    case Complete(_) => row.(status := Completed)
  }

  function TaskStep(s: State, step: Step): State
    requires OfOneTask(step) && step.task in s.tasks && s.tasks[step.task].entry in s.rows
  {
    Advance(s, step.task, PhaseAfter(step), RowAfter(step, s.rows[s.tasks[step.task].entry]))
  }

  ghost predicate Placed(s: State) {
    && (forall t :: t in s.tasks ==> s.tasks[t].entry in s.rows)
    && (forall w :: w in s.pollers && s.pollers[w].Dispatching? ==> s.pollers[w].entry in s.rows)
    && (forall e :: e in s.talking ==> e in s.rows)
  }

  ghost function Do(s: State, step: Step): State
    requires Placed(s) && Enabled(s, step)
  {
    match step
    case Enqueue(company, lead, priority) =>
      if Known(s.rows, company, lead) then s
      else s.(rows := s.rows[s.nextId := NewRow(company, lead, priority)], nextId := s.nextId + 1)
    case Check(w) => s.(pollers := s.pollers[w := Cleared])
    case Pick(w, _, _, e) =>
      s.(pollers := s.pollers[w := Dispatching(e)], rows := s.rows[e := Picked(s.rows[e])],
         owner := s.owner[e := OfPoller(w)])
    case PickNothing(w, _, _) => s.(pollers := s.pollers[w := Idle])
    case Start(w) =>
      var e := s.pollers[w].entry;
      s.(pollers := s.pollers[w := Idle], tasks := s.tasks[s.nextTask := Task(e, Started)],
         nextTask := s.nextTask + 1, active := s.active + {e}, owner := s.owner[e := OfTask(s.nextTask)])
    case Link(_) => TaskStep(s, step)
    case Fail(_) => TaskStep(s, step)
    case Overtake(_) => TaskStep(s, step)
    case Connect(_) => TaskStep(s, step)
    case Complete(_) => TaskStep(s, step)
    case Finish(t) =>
      var e := s.tasks[t].entry;
      var left := s.(tasks := s.tasks - {t}, active := s.active - {e});
      if s.tasks[t].phase == Live then left.(talking := s.talking + {e}, owner := s.owner[e := OfCall]) else left
    case HangUp(e) =>
      s.(talking := s.talking - {e}, rows := s.rows[e := s.rows[e].(status := Completed)], owner := s.owner - {e})
  }

  /** The lead a step is about, if it updates a row that exists. */
  function Subject(s: State, step: Step): Option<EntryId> {
    match step
    case Pick(_, _, _, e) => Some(e)
    case HangUp(e) => Some(e)
    case Link(t) => if t in s.tasks then Some(s.tasks[t].entry) else None
    case Fail(t) => if t in s.tasks then Some(s.tasks[t].entry) else None
    case Overtake(t) => if t in s.tasks then Some(s.tasks[t].entry) else None
    case Complete(t) => if t in s.tasks then Some(s.tasks[t].entry) else None
    case _ => None
  }

  /** What a step does to a row: a pick queues it with one more attempt, linking sets it to
      calling, a failure to pending or failed, an end of the call to completed. */
  lemma {:induction false} StepRows(s: State, step: Step, e: EntryId)
    requires Placed(s) && Enabled(s, step) && e in s.rows && (forall x :: x in s.rows ==> x < s.nextId)
    ensures e in Do(s, step).rows
    ensures var before, after := s.rows[e], Do(s, step).rows[e];
            if Subject(s, step) != Some(e) then after == before
            else if step.Pick? then after == before.(status := Queued, attempts := before.attempts + 1)
            else if step.Link? then after == before.(status := Calling)
            else if step.Fail? && before.attempts < before.maxAttempts then after == before.(status := Pending)
            else if step.Fail? then after == before.(status := Failed)
            else after == before.(status := Completed)
  {
  }

  /** Which rows there are, who is in the active set, and which pick a poller may make. */
  lemma {:induction false} StepSets(s: State, step: Step)
    requires Placed(s) && Enabled(s, step)
    ensures var after := Do(s, step);
            && (after.rows.Keys == s.rows.Keys || (step.Enqueue? && after.rows.Keys == s.rows.Keys + {s.nextId}))
            && (step.Enqueue? && s.nextId !in s.rows ==>
                  if exists e :: e in s.rows && s.rows[e].company == step.newCompany && s.rows[e].lead == step.lead
                  then after == s
                  else after.rows == s.rows[s.nextId := Row(step.newCompany, step.lead, step.priority, Pending, 0, 3)])
            && (step.Pick? ==> PickedSoonest(s.rows, step.company, step.locked, step.entry, after.rows))
            && (step.Check? ==> |s.active| < 5)
            && (if step.Start? then s.pollers[step.poller].Dispatching?
                                    && after.active == s.active + {s.pollers[step.poller].entry}
                else if step.Finish? then step.task in s.tasks && after.active == s.active - {s.tasks[step.task].entry}
                else after.active == s.active)
  {
    if step.Pick? {
      NextGoes(s.rows, step.company, step.locked, step.entry);
    }
  }

  /** The phases of a call task: linked, then connected, failed or overtaken by its own completion;
      it ends when the call ends, after a failure, or once its overtaken placement returns. */
  lemma {:induction false} StepTasks(s: State, step: Step, t: nat)
    requires Placed(s) && Enabled(s, step) && t in s.tasks && t < s.nextTask
    ensures var e, from, after := s.tasks[t].entry, s.tasks[t].phase, Do(s, step);
            match step
            case Link(u) =>
              u == t ==> from == Started && after.tasks == s.tasks[t := Task(e, Linked)]
            case Fail(u) =>
              u == t ==> from in {Started, Linked, Overtaken} && after.tasks == s.tasks[t := Task(e, Leaving)]
            case Overtake(u) =>
              u == t ==> from == Linked && after.tasks == s.tasks[t := Task(e, Overtaken)]
            case Connect(u) =>
              u == t ==> from == Linked && after.tasks == s.tasks[t := Task(e, Live)]
            case Complete(u) =>
              u == t ==> from == Live && after.tasks == s.tasks[t := Task(e, Leaving)]
            case Finish(u) =>
              u == t ==> && from in {Live, Overtaken, Leaving} && after.tasks == s.tasks - {t}
                         && after.talking == if from == Live then s.talking + {e} else s.talking
            case Start(w) =>
              && after.tasks == s.tasks[s.nextTask := Task(s.pollers[w].entry, Started)]
              && after.pollers[w] == Idle
            case _ => after.tasks == s.tasks
  {
  }

  // ------------------------------------------------------------------
  // Ownership
  // ------------------------------------------------------------------

  /** o has picked e and has not marked it since. */
  ghost predicate Owns(s: State, o: Owner, e: EntryId) {
    match o
    case OfPoller(w) => w in s.pollers && s.pollers[w] == Dispatching(e)
    case OfTask(t) => t in s.tasks && s.tasks[t].entry == e && Holds(s.tasks[t].phase)
    case OfCall => e in s.talking
  }

  /** The status an owner's progress entails. */
  ghost predicate Agrees(s: State, o: Owner, status: Status) {
    match o
    case OfPoller(_) => status == Queued
    case OfTask(t) => t in s.tasks && status == if s.tasks[t].phase == Started then Queued else Calling
    case OfCall => status == Calling
  }

  predicate RowOk(row: Row) {
    && row.attempts <= row.maxAttempts && row.maxAttempts >= 1
    && (row.status == Pending ==> row.attempts < row.maxAttempts)
    && (row.status == Failed ==> row.attempts == row.maxAttempts)
  }

  predicate Busy(row: Row) {
    row.status == Queued || row.status == Calling
  }

  ghost predicate Owned(s: State) {
    && (forall o, e :: Owns(s, o, e) <==> e in s.owner && s.owner[e] == o)
    && (forall e :: e in s.owner ==> e in s.rows && Agrees(s, s.owner[e], s.rows[e].status))
    && (forall e :: e in s.rows && Busy(s.rows[e]) ==> e in s.owner)
  }

  ghost predicate Tidy(s: State) {
    && Placed(s)
    && (forall e :: e in s.rows ==> e < s.nextId && RowOk(s.rows[e]))
    && (forall t :: t in s.tasks ==> t < s.nextTask)
  }

  /** A lead whose completion overtook its placement stays completed, and has one such task. */
  ghost predicate Settled(s: State) {
    && (forall t :: AtPhase(s, t, Overtaken) ==>
          s.tasks[t].entry in s.rows && s.rows[s.tasks[t].entry].status == Completed)
    && (forall t, u :: AtPhase(s, t, Overtaken) && AtPhase(s, u, Overtaken) && s.tasks[t].entry == s.tasks[u].entry ==>
          t == u)
  }

  ghost predicate Inv(s: State) {
    Tidy(s) && Owned(s) && Settled(s)
  }

  /** Moving a poller between idle and cleared concerns no lead. */
  lemma {:induction false} PollerKeeps(s: State, w: nat, p: Poller)
    requires Inv(s) && w in s.pollers && !s.pollers[w].Dispatching? && !p.Dispatching?
    ensures Owned(s.(pollers := s.pollers[w := p]))
  {
    var after := s.(pollers := s.pollers[w := p]);
    assert forall o, e :: Owns(after, o, e) <==> Owns(s, o, e);
  }

  /** The bookkeeping stays exact if it changes with the ownership of e only. */
  lemma {:induction false} OwnedAgain(s: State, after: State, e: EntryId)
    requires Owned(s) && e in s.rows
    requires after.rows.Keys == s.rows.Keys && forall x :: x in s.rows && x != e ==> after.rows[x] == s.rows[x]
    requires forall o, x :: x != e ==> (Owns(after, o, x) <==> Owns(s, o, x))
    requires forall x :: x in s.owner && x != e ==>
               forall st :: Agrees(s, s.owner[x], st) ==> Agrees(after, s.owner[x], st)
    requires forall x :: x != e ==>
                           (x in after.owner <==> x in s.owner) && (x in s.owner ==> after.owner[x] == s.owner[x])
    requires forall o :: Owns(after, o, e) <==> e in after.owner && after.owner[e] == o
    requires if e in after.owner then Agrees(after, after.owner[e], after.rows[e].status) else !Busy(after.rows[e])
    ensures Owned(after)
  {
    forall o, x ensures Owns(after, o, x) <==> x in after.owner && after.owner[x] == o {
      assert Owns(s, o, x) <==> x in s.owner && s.owner[x] == o;
    }
  }

  lemma {:induction false} AdvanceKeeps(s: State, t: nat, phase: Phase, row: Row)
    requires Inv(s) && t in s.tasks && Holds(s.tasks[t].phase) && phase != Started
    requires if Holds(phase) then row.status == Calling else !Busy(row)
    ensures Owned(Advance(s, t, phase, row))
  {
    var after, e := Advance(s, t, phase, row), s.tasks[t].entry;
    assert Owns(s, OfTask(t), e);
    forall x | x in s.owner && x != e ensures s.owner[x] != OfTask(t) {
      assert Owns(s, s.owner[x], x);
    }
    forall o ensures Owns(after, o, e) <==> e in after.owner && after.owner[e] == o {
      assert Owns(s, o, e) <==> s.owner[e] == o;
    }
    OwnedAgain(s, after, e);
  }

  /** A failure reported after the completion meets no owner. */
  lemma {:induction false} OvertakenUnowned(s: State, t: nat)
    requires Inv(s) && AtPhase(s, t, Overtaken)
    ensures s.tasks[t].entry in s.rows && s.tasks[t].entry !in s.owner
    ensures forall o :: !Owns(s, o, s.tasks[t].entry)
    ensures forall x :: x in s.owner ==> s.owner[x] != OfTask(t)
  {
    forall x | x in s.owner ensures s.owner[x] != OfTask(t) {
      assert Owns(s, s.owner[x], x);
    }
  }

  lemma {:induction false} LateFailKeeps(s: State, t: nat)
    requires Inv(s) && AtPhase(s, t, Overtaken)
    ensures Owned(Do(s, Fail(t)))
  {
    OvertakenUnowned(s, t);
    UnownedAdvance(s, t, AfterFailure(s.rows[s.tasks[t].entry]));
  }

  lemma {:induction false} UnownedAdvance(s: State, t: nat, row: Row)
    requires Owned(s) && t in s.tasks && s.tasks[t].phase == Overtaken && s.tasks[t].entry in s.rows
    requires s.tasks[t].entry !in s.owner && !Busy(row)
    requires forall o :: !Owns(s, o, s.tasks[t].entry)
    requires forall x :: x in s.owner ==> s.owner[x] != OfTask(t)
    ensures Owned(Advance(s, t, Leaving, row))
  {
    var after := Advance(s, t, Leaving, row);
    assert after.owner == s.owner;
    forall o, x ensures Owns(after, o, x) <==> Owns(s, o, x) {}
  }

  lemma {:induction false} StartKeeps(s: State, w: nat)
    requires Inv(s) && Enabled(s, Start(w))
    ensures Owned(Do(s, Start(w)))
  {
    var after, e := Do(s, Start(w)), s.pollers[w].entry;
    assert Owns(s, OfPoller(w), e);
    forall x | x in s.owner && x != e ensures s.owner[x] != OfTask(s.nextTask) {
      assert Owns(s, s.owner[x], x);
    }
    forall o ensures Owns(after, o, e) <==> o == OfTask(s.nextTask) {
      assert Owns(s, o, e) <==> s.owner[e] == o;
    }
    OwnedAgain(s, after, e);
  }

  lemma {:induction false} FinishKeeps(s: State, t: nat)
    requires Inv(s) && Enabled(s, Finish(t))
    ensures Owned(Do(s, Finish(t)))
  {
    if s.tasks[t].phase == Live {
      FinishLiveKeeps(s, t);
    } else {
      var after := Do(s, Finish(t));
      forall x | x in s.owner ensures s.owner[x] != OfTask(t) {
        assert Owns(s, s.owner[x], x);
      }
      forall o, x ensures Owns(after, o, x) <==> Owns(s, o, x) {}
    }
  }

  /** The call goes on after its task and is what owns the lead now. */
  lemma {:induction false} FinishLiveKeeps(s: State, t: nat)
    requires Inv(s) && AtPhase(s, t, Live)
    ensures Owned(Do(s, Finish(t)))
  {
    var after, e := Do(s, Finish(t)), s.tasks[t].entry;
    assert Owns(s, OfTask(t), e);
    forall x | x in s.owner && x != e ensures s.owner[x] != OfTask(t) {
      assert Owns(s, s.owner[x], x);
    }
    forall o ensures Owns(after, o, e) <==> o == OfCall {
      assert Owns(s, o, e) <==> s.owner[e] == o;
    }
    OwnedAgain(s, after, e);
  }

  lemma {:induction false} PickKeeps(s: State, step: Step)
    requires Inv(s) && step.Pick? && Enabled(s, step)
    ensures Owned(Do(s, step))
  {
    var after, e := Do(s, step), step.entry;
    forall x | x in s.owner && x != e ensures s.owner[x] != OfPoller(step.poller) {
      assert Owns(s, s.owner[x], x);
    }
    assert e !in s.owner;
    forall o ensures Owns(after, o, e) <==> o == OfPoller(step.poller) {
      assert !Owns(s, o, e);
    }
    OwnedAgain(s, after, e);
  }

  lemma {:induction false} HangUpKeeps(s: State, e: EntryId)
    requires Inv(s) && Enabled(s, HangUp(e))
    ensures Owned(Do(s, HangUp(e)))
  {
    var after := Do(s, HangUp(e));
    assert Owns(s, OfCall, e);
    forall o ensures !Owns(after, o, e) {
      assert Owns(s, o, e) <==> e in s.owner && s.owner[e] == o;
    }
    OwnedAgain(s, after, e);
  }

  lemma {:induction false} EnqueueKeeps(s: State, company: nat, lead: string, priority: int)
    requires Inv(s)
    ensures Owned(Do(s, Enqueue(company, lead, priority)))
  {
    assert forall o, e :: Owns(Do(s, Enqueue(company, lead, priority)), o, e) <==> Owns(s, o, e);
  }

  lemma {:induction false} DoKeepsTidy(s: State, step: Step)
    requires Inv(s) && Enabled(s, step)
    ensures Tidy(Do(s, step))
  {
    if OfOneTask(step) {
      TaskIsPlaced(s, step.task);
      AdvanceKeepsTidy(s, step.task, PhaseAfter(step), RowAfter(step, s.rows[s.tasks[step.task].entry]));
    } else if step.HangUp? {
      assert Owns(s, OfCall, step.entry);
    } else if step.Pick? {
      PickKeepsTidy(s, step);
    } else if step.Finish? {
      FinishKeepsTidy(s, step.task);
    }
  }

  lemma {:induction false} AdvanceKeepsTidy(s: State, t: nat, phase: Phase, row: Row)
    requires Tidy(s) && t in s.tasks && RowOk(row)
    ensures Tidy(Advance(s, t, phase, row))
  {
  }

  lemma {:induction false} PickKeepsTidy(s: State, step: Step)
    requires Tidy(s) && step.Pick? && Enabled(s, step)
    ensures Tidy(Do(s, step))
  {
  }

  lemma {:induction false} FinishKeepsTidy(s: State, t: nat)
    requires Inv(s) && Enabled(s, Finish(t))
    ensures Tidy(Do(s, Finish(t)))
  {
  }

  lemma {:induction false} DoKeepsSettled(s: State, step: Step)
    requires Inv(s) && Enabled(s, step)
    ensures Settled(Do(s, step))
  {
    if !OfOneTask(step) {
      OthersKeepSettled(s, step);
    } else if AtPhase(s, step.task, Overtaken) {
      LateFailKeepsSettled(s, step.task);
    } else {
      AdvanceKeepsSettled(s, step.task, PhaseAfter(step), RowAfter(step, s.rows[s.tasks[step.task].entry]));
    }
  }

  lemma {:induction false} AdvanceKeepsSettled(s: State, t: nat, phase: Phase, row: Row)
    requires Inv(s) && t in s.tasks && Holds(s.tasks[t].phase) && (phase == Overtaken ==> row.status == Completed)
    ensures Settled(Advance(s, t, phase, row))
  {
    assert Owns(s, OfTask(t), s.tasks[t].entry);
    SettledExcept(s, Advance(s, t, phase, row), t);
  }

  lemma {:induction false} LateFailKeepsSettled(s: State, t: nat)
    requires Inv(s) && AtPhase(s, t, Overtaken)
    ensures Settled(Do(s, Fail(t)))
  {
    SettledExcept(s, Do(s, Fail(t)), t);
  }

  /** Only t changes phase, and no other overtaken task has its lead. */
  lemma {:induction false} SettledExcept(s: State, after: State, t: nat)
    requires Settled(s) && t in s.tasks && t in after.tasks && after.tasks[t].entry == s.tasks[t].entry
    requires s.tasks[t].entry in after.rows
    requires AtPhase(after, t, Overtaken) ==> after.rows[s.tasks[t].entry].status == Completed
    requires forall u :: u != t ==>
                           (u in after.tasks <==> u in s.tasks) && (u in s.tasks ==> after.tasks[u] == s.tasks[u])
    requires forall u :: u != t && AtPhase(s, u, Overtaken) ==> s.tasks[u].entry != s.tasks[t].entry
    requires forall x :: x in s.rows && x != s.tasks[t].entry ==> x in after.rows && after.rows[x] == s.rows[x]
    ensures Settled(after)
  {
    forall u | AtPhase(after, u, Overtaken) && u != t ensures AtPhase(s, u, Overtaken) {}
  }

  lemma {:induction false} OthersKeepSettled(s: State, step: Step)
    requires Inv(s) && Enabled(s, step)
    requires !OfOneTask(step)
    ensures Settled(Do(s, step))
  {
    var after := Do(s, step);
    if step.HangUp? {
      assert Owns(s, OfCall, step.entry);
    }
    forall u | AtPhase(after, u, Overtaken) ensures AtPhase(s, u, Overtaken) && after.tasks[u] == s.tasks[u] {}
    forall u | AtPhase(s, u, Overtaken)
      ensures s.tasks[u].entry in after.rows && after.rows[s.tasks[u].entry] == s.rows[s.tasks[u].entry]
    {}
  }

  lemma {:induction false} DoKeeps(s: State, step: Step)
    requires Inv(s) && Enabled(s, step)
    ensures Inv(Do(s, step))
  {
    DoKeepsTidy(s, step);
    DoKeepsOwned(s, step);
    DoKeepsSettled(s, step);
  }

  lemma {:induction false} DoKeepsOwned(s: State, step: Step)
    requires Inv(s) && Enabled(s, step)
    ensures Owned(Do(s, step))
  {
    if OfOneTask(step) {
      TaskStepKeeps(s, step);
    } else {
      OtherStepKeeps(s, step);
    }
  }

  lemma {:induction false} TaskStepKeeps(s: State, step: Step)
    requires Inv(s) && Enabled(s, step) && OfOneTask(step)
    ensures Owned(Do(s, step))
  {
    if AtPhase(s, step.task, Overtaken) {
      LateFailKeeps(s, step.task);
    } else {
      TaskIsPlaced(s, step.task);
      AdvanceKeeps(s, step.task, PhaseAfter(step), RowAfter(step, s.rows[s.tasks[step.task].entry]));
    }
  }

  lemma {:induction false} TaskIsPlaced(s: State, t: nat)
    requires Inv(s) && t in s.tasks && s.tasks[t].phase != Leaving
    ensures s.tasks[t].entry in s.rows
    ensures s.rows[s.tasks[t].entry].status == (match s.tasks[t].phase
                                                case Started => Queued
                                                case Overtaken => Completed
                                                case _ => Calling)
  {
    assert if Holds(s.tasks[t].phase) then Owns(s, OfTask(t), s.tasks[t].entry) else AtPhase(s, t, Overtaken);
  }

  lemma {:induction false} OtherStepKeeps(s: State, step: Step)
    requires Inv(s) && Enabled(s, step) && !OfOneTask(step)
    ensures Owned(Do(s, step))
  {
    match step
    case Enqueue(company, lead, priority) => EnqueueKeeps(s, company, lead, priority);
    case Check(w) => PollerKeeps(s, w, Cleared);
    case Pick(_, _, _, _) => PickKeeps(s, step);
    case PickNothing(w, _, _) => PollerKeeps(s, w, Idle);
    case Start(w) => StartKeeps(s, w);
    case Finish(t) => FinishKeeps(s, t);
    case HangUp(e) => HangUpKeeps(s, e);
  }

  // ------------------------------------------------------------------
  // Runs
  // ------------------------------------------------------------------

  function Initial(pollers: set<nat>): State {
    State(map[], 0, map w | w in pollers :: Idle, map[], 0, {}, {}, map[])
  }

  lemma {:induction false} InitialInv(pollers: set<nat>)
    ensures Inv(Initial(pollers))
  {
  }

  /** The steps can be taken one after the other from s and lead to after. */
  ghost predicate Run(s: State, steps: seq<Step>, after: State)
    decreases |steps|
  {
    if steps == [] then after == s
    else Placed(s) && Enabled(s, steps[0]) && Run(Do(s, steps[0]), steps[1..], after)
  }

  lemma {:induction false} RunKeeps(s: State, steps: seq<Step>, after: State)
    requires Inv(s) && Run(s, steps, after)
    ensures Inv(after)
    decreases |steps|
  {
    if steps != [] {
      DoKeeps(s, steps[0]);
      RunKeeps(Do(s, steps[0]), steps[1..], after);
    }
  }

  /** In every interleaving each lead has at most one owner between pick and mark, exactly one
      while it is queued or calling, and a lead waiting in the queue has attempts left. */
  lemma {:induction false} OneOwner(pollers: set<nat>, steps: seq<Step>, s: State, e: EntryId)
    requires Run(Initial(pollers), steps, s) && e in s.rows
    ensures forall o, o' :: Owns(s, o, e) && Owns(s, o', e) ==> o == o'
    ensures s.rows[e].status == Queued || s.rows[e].status == Calling <==> exists o :: Owns(s, o, e)
    ensures s.rows[e].status == Pending ==> s.rows[e].attempts < s.rows[e].maxAttempts
  {
    InitialInv(pollers);
    RunKeeps(Initial(pollers), steps, s);
    if e in s.owner {
      assert Owns(s, s.owner[e], e);
    }
  }

  lemma {:induction false} RunKeepsUnique(s: State, steps: seq<Step>, after: State)
    requires Inv(s) && Unique(s.rows) && Run(s, steps, after)
    ensures Unique(after.rows)
    decreases |steps|
  {
    if steps != [] {
      DoKeeps(s, steps[0]);
      DoKeepsUnique(s, steps[0]);
      RunKeepsUnique(Do(s, steps[0]), steps[1..], after);
    }
  }

  lemma {:induction false} DoKeepsUnique(s: State, step: Step)
    requires Inv(s) && Unique(s.rows) && Enabled(s, step)
    ensures Unique(Do(s, step).rows)
  {
    if OfOneTask(step) {
      var e := s.tasks[step.task].entry;
      SameLead(s.rows, e, RowAfter(step, s.rows[e]));
    } else if step.Pick? {
      SameLead(s.rows, step.entry, Picked(s.rows[step.entry]));
    } else if step.HangUp? {
      SameLead(s.rows, step.entry, s.rows[step.entry].(status := Completed));
    }
  }

  lemma {:induction false} SameLead(rows: Rows, e: EntryId, row: Row)
    requires Unique(rows) && e in rows && row.company == rows[e].company && row.lead == rows[e].lead
    ensures Unique(rows[e := row])
  {
  }

  /** (company, lead) stays unique. */
  lemma {:induction false} LeadsStayUnique(pollers: set<nat>, steps: seq<Step>, s: State, d: EntryId, e: EntryId)
    requires Run(Initial(pollers), steps, s) && d in s.rows && e in s.rows
    requires s.rows[d].company == s.rows[e].company && s.rows[d].lead == s.rows[e].lead
    ensures d == e
  {
    InitialInv(pollers);
    RunKeepsUnique(Initial(pollers), steps, s);
  }

  // ------------------------------------------------------------------
  // When completed is final
  // ------------------------------------------------------------------

  /** A step takes a lead out of completed exactly when it reports the failed placement of a
      call whose completion was reported first; the lead then waits for another call exactly
      when attempts remain. */
  lemma {:induction false} RevivedIff(s: State, step: Step, e: EntryId)
    requires Inv(s) && Enabled(s, step) && e in s.rows && s.rows[e].status == Completed
    ensures e in Do(s, step).rows
    ensures Do(s, step).rows[e].status != Completed <==> ReportsLate(s, step, e)
    ensures Do(s, step).rows[e].status == Pending <==>
            ReportsLate(s, step, e) && s.rows[e].attempts < s.rows[e].maxAttempts
  {
    if OfOneTask(step) {
      TaskOfCompleted(s, step.task, e);
      TaskRevivesIff(s, step, e);
    } else if step.HangUp? {
      assert Owns(s, OfCall, step.entry);
    }
  }

  /** The step is the failure report of a placement of e that its completion overtook. */
  predicate ReportsLate(s: State, step: Step, e: EntryId) {
    step.Fail? && AtPhase(s, step.task, Overtaken) && s.tasks[step.task].entry == e
  }

  lemma {:induction false} TaskRevivesIff(s: State, step: Step, e: EntryId)
    requires Placed(s) && Enabled(s, step) && OfOneTask(step) && e in s.rows && s.rows[e].status == Completed
    requires s.tasks[step.task].entry == e ==> !Holds(s.tasks[step.task].phase)
    ensures e in Do(s, step).rows
    ensures Do(s, step).rows[e].status != Completed <==> ReportsLate(s, step, e)
    ensures Do(s, step).rows[e].status == Pending <==>
            ReportsLate(s, step, e) && s.rows[e].attempts < s.rows[e].maxAttempts
  {
  }

  /** Of the tasks that can still mark a completed lead, only one whose call is over has it. */
  lemma {:induction false} TaskOfCompleted(s: State, t: nat, e: EntryId)
    requires Inv(s) && e in s.rows && s.rows[e].status == Completed
    ensures t in s.tasks && s.tasks[t].entry == e ==> !Holds(s.tasks[t].phase)
  {
    assert Owns(s, OfTask(t), e) ==> Agrees(s, OfTask(t), s.rows[e].status);
  }

  /** Attempts left and a completion that comes before the placement returns are enough. */
  lemma {:induction false} CompletedRevives(s: State, t: nat) returns (done: State, after: State)
    requires Inv(s) && AtPhase(s, t, Linked)
    ensures s.tasks[t].entry in s.rows
    ensures Run(s, [Overtake(t)], done) && Run(done, [Fail(t)], after)
    ensures s.tasks[t].entry in done.rows && done.rows[s.tasks[t].entry].status == Completed
    ensures s.tasks[t].entry in after.rows
         && (after.rows[s.tasks[t].entry].status == Pending <==>
               s.rows[s.tasks[t].entry].attempts < s.rows[s.tasks[t].entry].maxAttempts)
  {
    done := Do(s, Overtake(t));
    DoKeeps(s, Overtake(t));
    after := Do(done, Fail(t));
    OneStep(s, Overtake(t));
    OneStep(done, Fail(t));
  }

  lemma {:induction false} OneStep(s: State, step: Step)
    requires Placed(s) && Enabled(s, step)
    ensures Run(s, [step], Do(s, step))
  {
    assert [step][1..] == [];
  }

  /** It happens: from an empty queue a run leads to a completed lead, and its next step puts
      that lead back into the queue. */
  lemma {:induction false} RevivedRun() returns (steps: seq<Step>, done: State, late: Step)
    ensures Run(Initial({0}), steps, done) && Enabled(done, late) && Placed(done)
    ensures 0 in done.rows && done.rows[0].status == Completed
    ensures 0 in Do(done, late).rows && Do(done, late).rows[0].status == Pending
  {
    var calling, s1 := OneCall({0}, 0);
    DoKeeps(s1, Link(0));
    var linked := Do(s1, Link(0));
    OneStep(s1, Link(0));
    var after;
    done, after := CompletedRevives(linked, 0);
    late := Fail(0);
    RunAppend(s1, [Link(0)], linked, [Overtake(0)], done);
    RunAppend(Initial({0}), calling, s1, [Link(0)] + [Overtake(0)], done);
    steps := calling + ([Link(0)] + [Overtake(0)]);
    LastStep(done, late, after);
  }

  lemma {:induction false} LastStep(s: State, step: Step, after: State)
    requires Run(s, [step], after)
    ensures Placed(s) && Enabled(s, step) && after == Do(s, step)
  {
    assert [step][1..] == [];
  }

  /** One lead is enqueued and its call task started. */
  lemma {:induction false} OneCall(pollers: set<nat>, w: nat) returns (steps: seq<Step>, s: State)
    requires w in pollers
    ensures Run(Initial(pollers), steps, s) && Stage(s, pollers, 1, 1, {})
    ensures AtPhase(s, 0, Started) && s.tasks[0].entry == 0
    ensures 0 in s.rows && s.rows[0].attempts < s.rows[0].maxAttempts
  {
    InitialStage(pollers);
    var a, s1 := EnqueueMore(Initial(pollers), pollers, 0, 1);
    var b, s2 := CheckOne(s1, pollers, 1, 0, {}, w);
    var c;
    c, s := LaunchOne(s2, pollers, 1, 0, {} + {w}, w);
    assert {} + {w} - {w} == {};
    SceneRowZero(s, pollers, 1, {});
    steps := RunThree(Initial(pollers), a, s1, b, s2, c, s);
  }

  lemma {:induction false} SceneRowZero(s: State, pollers: set<nat>, j: nat, ready: set<nat>)
    requires Stage(s, pollers, j, j, ready) && j > 0
    ensures 0 in s.rows && s.rows[0].attempts < s.rows[0].maxAttempts
  {
    assert SceneRow(0, s.rows[0], true);
  }

  lemma {:induction false} RunThree(
    s: State, a: seq<Step>, s1: State, b: seq<Step>, s2: State, c: seq<Step>, after: State)
    returns (steps: seq<Step>)
    requires Run(s, a, s1) && Run(s1, b, s2) && Run(s2, c, after)
    ensures Run(s, steps, after)
  {
    RunAppend(s1, b, s2, c, after);
    RunAppend(s, a, s1, b + c, after);
    steps := a + (b + c);
  }

  lemma {:induction false} RunAppend(s: State, a: seq<Step>, mid: State, b: seq<Step>, after: State)
    requires Run(s, a, mid) && Run(mid, b, after)
    ensures Run(s, a + b, after)
    decreases |a|
  {
    if a == [] {
      assert a + b == b;
    } else {
      assert (a + b)[1..] == a[1..] + b;
      RunAppend(Do(s, a[0]), a[1..], mid, b, after);
    }
  }

  predicate InTime(steps: seq<Step>) {
    forall i :: 0 <= i < |steps| ==> !steps[i].Overtake?
  }

  ghost predicate NoneOvertaken(s: State) {
    forall t :: !AtPhase(s, t, Overtaken)
  }

  lemma {:induction false} StepInTime(s: State, step: Step)
    requires Inv(s) && Enabled(s, step) && NoneOvertaken(s) && !step.Overtake?
    ensures NoneOvertaken(Do(s, step))
  {
    var after := Do(s, step);
    forall t | AtPhase(after, t, Overtaken) ensures AtPhase(s, t, Overtaken) {}
  }

  lemma {:induction false} RunInTime(s: State, steps: seq<Step>, after: State, e: EntryId)
    requires Inv(s) && NoneOvertaken(s) && Run(s, steps, after) && InTime(steps)
    ensures NoneOvertaken(after)
    ensures e in s.rows && s.rows[e].status == Completed ==> e in after.rows && after.rows[e].status == Completed
    decreases |steps|
  {
    if steps != [] {
      DoKeeps(s, steps[0]);
      StepInTime(s, steps[0]);
      if e in s.rows && s.rows[e].status == Completed {
        RevivedIff(s, steps[0], e);
      }
      RunInTime(Do(s, steps[0]), steps[1..], after, e);
    }
  }

  /** While no completion overtakes a placement, completed is final. */
  lemma {:induction false} CompletedIsFinal(
    pollers: set<nat>, steps: seq<Step>, s: State, more: seq<Step>, after: State, e: EntryId)
    requires Run(Initial(pollers), steps, s) && Run(s, more, after) && InTime(steps) && InTime(more)
    requires e in s.rows && s.rows[e].status == Completed
    ensures e in after.rows && after.rows[e].status == Completed
  {
    InitialInv(pollers);
    RunKeeps(Initial(pollers), steps, s);
    RunInTime(Initial(pollers), steps, s, e);
    RunInTime(s, more, after, e);
  }

  // ------------------------------------------------------------------
  // Picks
  // ------------------------------------------------------------------

  function PicksOf(steps: seq<Step>, e: EntryId): nat {
    if steps == [] then 0
    else (if steps[0].Pick? && steps[0].entry == e then 1 else 0) + PicksOf(steps[1..], e)
  }

  function Attempts(s: State, e: EntryId): nat {
    if e in s.rows then s.rows[e].attempts else 0
  }

  lemma {:induction false} StepCounted(s: State, step: Step, e: EntryId)
    requires Inv(s) && Enabled(s, step)
    ensures Attempts(Do(s, step), e) == Attempts(s, e) + if step.Pick? && step.entry == e then 1 else 0
  {
  }

  lemma {:induction false} PicksCounted(s: State, steps: seq<Step>, after: State, e: EntryId)
    requires Inv(s) && Run(s, steps, after)
    ensures Attempts(after, e) == Attempts(s, e) + PicksOf(steps, e)
    decreases |steps|
  {
    if steps != [] {
      DoKeeps(s, steps[0]);
      StepCounted(s, steps[0], e);
      PicksCounted(Do(s, steps[0]), steps[1..], after, e);
    }
  }

  /** attempt_count is the number of picks, and no lead is picked more than max_attempts times. */
  lemma {:induction false} PicksBounded(pollers: set<nat>, steps: seq<Step>, s: State, e: EntryId)
    requires Run(Initial(pollers), steps, s) && e in s.rows
    ensures s.rows[e].attempts == PicksOf(steps, e) <= s.rows[e].maxAttempts
  {
    InitialInv(pollers);
    RunKeeps(Initial(pollers), steps, s);
    PicksCounted(Initial(pollers), steps, s, e);
  }

  // ------------------------------------------------------------------
  // No run retries forever
  // ------------------------------------------------------------------

  function Rank(status: Status): nat {
    match status
    case Queued => 3
    case Calling => 2
    case Completed => 1
    case _ => 0
  }

  function Credit(row: Row): int {
    4 * (row.maxAttempts - row.attempts) + Rank(row.status)
  }

  function Potential(rows: Rows, n: nat): int {
    if n == 0 then 0 else Potential(rows, n - 1) + if n - 1 in rows then Credit(rows[n - 1]) else 0
  }

  lemma {:induction false} PotentialUpdates(rows: Rows, e: EntryId, row: Row, n: nat)
    ensures Potential(rows[e := row], n) ==
            Potential(rows, n) + if e < n then Credit(row) - (if e in rows then Credit(rows[e]) else 0) else 0
  {
    if n > 0 {
      PotentialUpdates(rows, e, row, n - 1);
    }
  }

  lemma {:induction false} PotentialPositive(rows: Rows, n: nat)
    requires forall e :: e in rows ==> RowOk(rows[e])
    ensures Potential(rows, n) >= 0
  {
    if n > 0 {
      PotentialPositive(rows, n - 1);
    }
  }

  /** The steps that pick or mark a lead. */
  predicate RowStep(step: Step) {
    step.Pick? || step.Link? || step.Fail? || step.Overtake? || step.Complete? || step.HangUp?
  }

  function RowSteps(steps: seq<Step>): nat {
    if steps == [] then 0 else (if RowStep(steps[0]) then 1 else 0) + RowSteps(steps[1..])
  }

  function Stock(s: State): int {
    Potential(s.rows, s.nextId)
  }

  /** Each pick and each mark uses up credit; a new lead brings in twelve. */
  lemma {:induction false} StepSpends(s: State, step: Step)
    requires Inv(s) && Enabled(s, step)
    ensures Stock(Do(s, step)) + (if RowStep(step) then 1 else 0)
         <= Stock(s) + 12 * (Do(s, step).nextId - s.nextId)
  {
    if OfOneTask(step) {
      TaskStepSpends(s, step);
    } else if step.Enqueue? {
      EnqueueSpends(s, step.newCompany, step.lead, step.priority);
    } else if step.Pick? {
      PickSpends(s, step);
    } else if step.HangUp? {
      HangUpSpends(s, step.entry);
    }
  }

  lemma {:induction false} TaskStepSpends(s: State, step: Step)
    requires Inv(s) && Enabled(s, step) && OfOneTask(step)
    ensures Stock(Do(s, step)) <= Stock(s) - if step.Connect? then 0 else 1
    ensures Do(s, step).nextId == s.nextId
  {
    TaskIsPlaced(s, step.task);
    AdvanceSpends(s, step.task, PhaseAfter(step), RowAfter(step, s.rows[s.tasks[step.task].entry]));
  }

  lemma {:induction false} EnqueueSpends(s: State, company: nat, lead: string, priority: int)
    requires Inv(s)
    ensures Stock(Do(s, Enqueue(company, lead, priority)))
         <= Stock(s) + 12 * (Do(s, Enqueue(company, lead, priority)).nextId - s.nextId)
  {
    PotentialUpdates(s.rows, s.nextId, NewRow(company, lead, priority), s.nextId);
  }

  lemma {:induction false} PickSpends(s: State, step: Step)
    requires Inv(s) && step.Pick? && Enabled(s, step)
    ensures Stock(Do(s, step)) == Stock(s) - 1 && Do(s, step).nextId == s.nextId
  {
    PotentialUpdates(s.rows, step.entry, Picked(s.rows[step.entry]), s.nextId);
  }

  lemma {:induction false} HangUpSpends(s: State, e: EntryId)
    requires Inv(s) && Enabled(s, HangUp(e))
    ensures Stock(Do(s, HangUp(e))) == Stock(s) - 1 && Do(s, HangUp(e)).nextId == s.nextId
  {
    assert Owns(s, OfCall, e);
    PotentialUpdates(s.rows, e, s.rows[e].(status := Completed), s.nextId);
  }

  lemma {:induction false} AdvanceSpends(s: State, t: nat, phase: Phase, row: Row)
    requires t in s.tasks && s.tasks[t].entry in s.rows && s.tasks[t].entry < s.nextId
    ensures Stock(Advance(s, t, phase, row)) == Stock(s) + Credit(row) - Credit(s.rows[s.tasks[t].entry])
  {
    PotentialUpdates(s.rows, s.tasks[t].entry, row, s.nextId);
  }

  lemma {:induction false} RunSpends(s: State, steps: seq<Step>, after: State)
    requires Inv(s) && Run(s, steps, after)
    ensures Stock(after) + RowSteps(steps) <= Stock(s) + 12 * (after.nextId - s.nextId)
    decreases |steps|
  {
    if steps != [] {
      DoKeeps(s, steps[0]);
      StepSpends(s, steps[0]);
      RunSpends(Do(s, steps[0]), steps[1..], after);
    }
  }

  /** However workers interleave, a run makes at most twelve picks and marks for each lead that
      was accepted: pick, link, completion and late failure, three times over. */
  lemma {:induction false} NoEndlessRetries(pollers: set<nat>, steps: seq<Step>, s: State)
    requires Run(Initial(pollers), steps, s)
    ensures RowSteps(steps) <= 12 * s.nextId
  {
    InitialInv(pollers);
    RunKeeps(Initial(pollers), steps, s);
    RunSpends(Initial(pollers), steps, s);
    PotentialPositive(s.rows, s.nextId);
  }

  // ------------------------------------------------------------------
  // The concurrency cap
  // ------------------------------------------------------------------

  function BusyPollers(s: State): set<nat> {
    set w | w in s.pollers && s.pollers[w] != Idle
  }

  /** The cap check and the entry into the active set are separate, so each poller may be
      one pick ahead of it. */
  ghost predicate Capped(s: State) {
    |s.active| + |BusyPollers(s)| <= MAX_CONCURRENT - 1 + |s.pollers|
  }

  lemma {:induction false} DoKeepsCap(s: State, step: Step)
    requires Inv(s) && Enabled(s, step) && Capped(s)
    ensures Capped(Do(s, step)) && Do(s, step).pollers.Keys == s.pollers.Keys
  {
    var after := Do(s, step);
    PollersStay(s, step);
    SamePollers(s.pollers, after.pollers);
    BusyAfter(s, step);
    SubsetSize(BusyPollers(after), s.pollers.Keys);
    ActiveAfter(s, step);
  }

  lemma {:induction false} PollersStay(s: State, step: Step)
    requires Placed(s) && Enabled(s, step)
    ensures Do(s, step).pollers.Keys == s.pollers.Keys
  {
  }

  lemma {:induction false} ActiveAfter(s: State, step: Step)
    requires Placed(s) && Enabled(s, step)
    ensures |Do(s, step).active| <= |s.active| + if step.Start? then 1 else 0
    ensures step.Check? ==> |s.active| < MAX_CONCURRENT
  {
    if step.Finish? {
      SubsetSize(Do(s, step).active, s.active);
    }
  }

  lemma {:induction false} BusyAfter(s: State, step: Step)
    requires Placed(s) && Enabled(s, step)
    ensures BusyPollers(Do(s, step)) ==
            if step.Check? then BusyPollers(s) + {step.poller}
            else if step.PickNothing? || step.Start? then BusyPollers(s) - {step.poller}
            else BusyPollers(s)
    ensures step.PickNothing? || step.Start? ==> step.poller in BusyPollers(s)
  {
  }

  lemma {:induction false} SamePollers(a: map<nat, Poller>, b: map<nat, Poller>)
    requires a.Keys == b.Keys
    ensures |a| == |b| == |b.Keys|
  {
    assert |a| == |a.Keys|;
  }

  lemma {:induction false} RunKeepsCap(s: State, steps: seq<Step>, after: State)
    requires Inv(s) && Capped(s) && Run(s, steps, after)
    ensures Capped(after) && after.pollers.Keys == s.pollers.Keys
    decreases |steps|
  {
    if steps != [] {
      DoKeeps(s, steps[0]);
      DoKeepsCap(s, steps[0]);
      RunKeepsCap(Do(s, steps[0]), steps[1..], after);
    }
  }

  /** With k pollers in the process the active set never exceeds 5 + (k - 1) entries. */
  lemma {:induction false} ActiveSetBounded(pollers: set<nat>, steps: seq<Step>, s: State)
    requires Run(Initial(pollers), steps, s) && pollers != {}
    ensures |s.active| <= 5 + |pollers| - 1
  {
    var start := Initial(pollers);
    InitialInv(pollers);
    assert start.pollers.Keys == pollers && |start.pollers| == |start.pollers.Keys|;
    assert BusyPollers(start) == {};
    SubsetSize({}, pollers);
    RunKeepsCap(start, steps, s);
    assert |s.pollers| == |s.pollers.Keys|;
  }

  /** m leads were enqueued, one of each company, the first j were picked and are the active
      ones, and of the pollers those in `ready` are past the cap check. */
  ghost predicate Scene(s: State, pollers: set<nat>, m: nat, j: nat, ready: set<nat>) {
    && j <= m == s.nextId
    && s.pollers.Keys == pollers && ready <= pollers
    && (forall w :: w in s.pollers ==> s.pollers[w] == if w in ready then Cleared else Idle)
    && (forall e: EntryId :: e in s.rows <==> e < m)
    && (forall e :: e in s.rows ==> SceneRow(e, s.rows[e], e < j))
    && (forall e :: e in s.active ==> e < j) && |s.active| == j
  }

  predicate SceneRow(e: EntryId, row: Row, picked: bool) {
    row == if picked then Picked(NewRow(e, "", 5)) else NewRow(e, "", 5)
  }

  ghost predicate Stage(s: State, pollers: set<nat>, m: nat, j: nat, ready: set<nat>) {
    Inv(s) && Scene(s, pollers, m, j, ready)
  }

  lemma {:induction false} InitialStage(pollers: set<nat>)
    ensures Stage(Initial(pollers), pollers, 0, 0, {})
  {
    InitialInv(pollers);
    var s := Initial(pollers);
    assert s.pollers.Keys == pollers && s.active == {};
  }

  lemma {:induction false} EnqueueMore(s: State, pollers: set<nat>, m: nat, n: nat)
    returns (steps: seq<Step>, after: State)
    requires m <= n && Stage(s, pollers, m, 0, {})
    ensures Run(s, steps, after) && Stage(after, pollers, n, 0, {}) && after.nextTask == s.nextTask
    decreases n - m
  {
    steps, after := [], s;
    if m < n {
      var step := Enqueue(m, "", 5);
      DoKeeps(s, step);
      EnqueueScene(s, pollers, m);
      steps, after := EnqueueMore(Do(s, step), pollers, m + 1, n);
      steps := Prepend(s, step, steps, after);
    }
  }

  lemma {:induction false} EnqueueScene(s: State, pollers: set<nat>, m: nat)
    requires Placed(s) && Scene(s, pollers, m, 0, {})
    ensures Scene(Do(s, Enqueue(m, "", 5)), pollers, m + 1, 0, {})
    ensures Do(s, Enqueue(m, "", 5)).nextTask == s.nextTask
  {
    assert !Known(s.rows, m, "");
  }

  lemma {:induction false} CheckOne(s: State, pollers: set<nat>, m: nat, j: nat, ready: set<nat>, w: nat)
    returns (steps: seq<Step>, after: State)
    requires Stage(s, pollers, m, j, ready) && j < MAX_CONCURRENT && w in pollers && w !in ready
    ensures Run(s, steps, after) && Stage(after, pollers, m, j, ready + {w}) && after.nextTask == s.nextTask
  {
    after := Do(s, Check(w));
    DoKeeps(s, Check(w));
    OneStep(s, Check(w));
    steps := [Check(w)];
  }

  lemma {:induction false} LaunchOne(s: State, pollers: set<nat>, m: nat, j: nat, ready: set<nat>, w: nat)
    returns (steps: seq<Step>, after: State)
    requires Stage(s, pollers, m, j, ready) && j < m && w in ready
    ensures Run(s, steps, after) && Stage(after, pollers, m, j + 1, ready - {w})
    ensures after.nextTask == s.nextTask + 1
    ensures s.nextTask in after.tasks && after.tasks[s.nextTask] == Task(j, Started)
  {
    var pick := Pick(w, None, {}, j);
    DispatchScene(s, pollers, m, j, ready, w);
    DoKeeps(s, pick);
    var mid := Do(s, pick);
    DoKeeps(mid, Start(w));
    after := Do(mid, Start(w));
    steps := [pick, Start(w)];
    TwoSteps(s, pick, Start(w));
  }

  lemma {:induction false} TwoSteps(s: State, first: Step, second: Step)
    requires Placed(s) && Enabled(s, first) && Placed(Do(s, first)) && Enabled(Do(s, first), second)
    ensures Run(s, [first, second], Do(Do(s, first), second))
  {
    OneStep(Do(s, first), second);
    assert [first, second][1..] == [second];
  }

  lemma {:induction false} DispatchScene(s: State, pollers: set<nat>, m: nat, j: nat, ready: set<nat>, w: nat)
    requires Placed(s) && Scene(s, pollers, m, j, ready) && j < m && w in ready
    ensures var pick := Pick(w, None, {}, j);
            && Enabled(s, pick) && Placed(Do(s, pick)) && Enabled(Do(s, pick), Start(w))
            && var after := Do(Do(s, pick), Start(w));
               && Scene(after, pollers, m, j + 1, ready - {w})
               && after.nextTask == s.nextTask + 1
               && s.nextTask in after.tasks && after.tasks[s.nextTask] == Task(j, Started)
  {
    NextInScene(s, pollers, m, j, ready);
    PickScene(s, pollers, m, j, ready, w);
  }

  lemma {:induction false} NextInScene(s: State, pollers: set<nat>, m: nat, j: nat, ready: set<nat>)
    requires Scene(s, pollers, m, j, ready) && j < m
    ensures IsNext(s.rows, None, {}, j)
  {
    assert SceneRow(j, s.rows[j], false);
    forall x: EntryId | Candidate(s.rows, None, {}, x) && x != j ensures Sooner(s.rows, j, x) {
      assert SceneRow(x, s.rows[x], x < j);
    }
  }

  /** What the pick leaves, before its task is started. */
  lemma {:induction false} PickScene(s: State, pollers: set<nat>, m: nat, j: nat, ready: set<nat>, w: nat)
    requires Placed(s) && Scene(s, pollers, m, j, ready) && j < m && w in ready && IsNext(s.rows, None, {}, j)
    ensures var mid := Do(s, Pick(w, None, {}, j));
            && Placed(mid) && mid.rows == s.rows[j := Picked(s.rows[j])] && mid.nextId == s.nextId
            && mid.pollers == s.pollers[w := Dispatching(j)] && mid.active == s.active
            && mid.tasks == s.tasks && mid.nextTask == s.nextTask
  {
  }

  lemma {:induction false} CheckRest(s: State, pollers: set<nat>, m: nat, j: nat, ready: set<nat>)
    returns (steps: seq<Step>, after: State)
    requires Stage(s, pollers, m, j, ready) && j < MAX_CONCURRENT
    ensures Run(s, steps, after) && Stage(after, pollers, m, j, pollers)
    decreases pollers - ready
  {
    if w :| w in pollers && w !in ready {
      var first, mid := CheckOne(s, pollers, m, j, ready, w);
      steps, after := CheckRest(mid, pollers, m, j, ready + {w});
      RunAppend(s, first, mid, steps, after);
      steps := first + steps;
    } else {
      assert ready == pollers;
      steps, after := [], s;
    }
  }

  lemma {:induction false} LaunchRest(s: State, pollers: set<nat>, m: nat, j: nat, ready: set<nat>)
    returns (steps: seq<Step>, after: State)
    requires Stage(s, pollers, m, j, ready) && j + |ready| <= m
    ensures Run(s, steps, after) && Stage(after, pollers, m, j + |ready|, {})
    decreases ready
  {
    if w :| w in ready {
      var first, mid := LaunchOne(s, pollers, m, j, ready, w);
      steps, after := LaunchRest(mid, pollers, m, j + 1, ready - {w});
      RunAppend(s, first, mid, steps, after);
      steps := first + steps;
    } else {
      assert ready == {};
      steps, after := [], s;
    }
  }

  /** One poller alone starts n calls one after the other. */
  lemma {:induction false} StartCalls(s: State, pollers: set<nat>, m: nat, j: nat, n: nat, w: nat)
    returns (steps: seq<Step>, after: State)
    requires Stage(s, pollers, m, j, {}) && w in pollers && j <= n <= m && n <= MAX_CONCURRENT
    ensures Run(s, steps, after) && Stage(after, pollers, m, n, {})
    decreases n - j
  {
    steps, after := [], s;
    if j < n {
      var a, s1 := CheckOne(s, pollers, m, j, {}, w);
      var b, s2 := LaunchOne(s1, pollers, m, j, {} + {w}, w);
      assert {} + {w} - {w} == {};
      var c;
      c, after := StartCalls(s2, pollers, m, j + 1, n, w);
      RunAppend(s1, b, s2, c, after);
      RunAppend(s, a, s1, b + c, after);
      steps := a + (b + c);
    }
  }

  /** The bound is attained: with four calls under way every poller passes the check, and then
      every one of them starts a call. */
  lemma {:induction false} CapIsExceeded(pollers: set<nat>) returns (steps: seq<Step>, s: State)
    requires pollers != {}
    ensures Run(Initial(pollers), steps, s)
    ensures |s.active| == 5 + |pollers| - 1
  {
    var m, four := MAX_CONCURRENT - 1 + |pollers|, MAX_CONCURRENT - 1;
    var s0, w :| s0 == Initial(pollers) && w in pollers;
    InitialStage(pollers);
    var a, s1 := EnqueueMore(s0, pollers, 0, m);
    var b, s2 := StartCalls(s1, pollers, m, 0, four, w);
    var c, s3 := CheckRest(s2, pollers, m, four, {});
    var d;
    d, s := LaunchRest(s3, pollers, m, four, pollers);
    RunAppend(s2, c, s3, d, s);
    RunAppend(s1, b, s2, c + d, s);
    RunAppend(s0, a, s1, b + (c + d), s);
    steps := a + (b + (c + d));
  }

  /** Yet the set undercounts: a failed task frees its lead before it leaves the set, and its
      leaving removes the entry of the task that has meanwhile picked the lead again. */
  lemma {:induction false} RetriedTaskUncounted(s: State, w: nat, t: nat) returns (steps: seq<Step>, after: State)
    requires Inv(s) && w in s.pollers && s.pollers[w] == Idle && |s.active| < MAX_CONCURRENT
    requires t in s.tasks && (s.tasks[t].phase == Started || s.tasks[t].phase == Linked)
    requires var e := s.tasks[t].entry;
             && s.rows[e].attempts < s.rows[e].maxAttempts
             && forall x :: x in s.rows && x != e && s.rows[x].status == Pending ==> Sooner(s.rows, e, x)
    ensures Run(s, steps, after) && Inv(after)
    ensures s.nextTask in after.tasks && after.tasks[s.nextTask] == Task(s.tasks[t].entry, Started)
    ensures s.tasks[t].entry !in after.active
  {
    var e := s.tasks[t].entry;
    assert Owns(s, OfTask(t), e);
    DoKeeps(s, Check(w));
    var s1 := Do(s, Check(w));
    DoKeeps(s1, Fail(t));
    var s2 := Do(s1, Fail(t));
    FailedIsNext(s, e);
    steps, after := PickedWhileLeaving(s2, w, t, e);
    steps := Prepend(s1, Fail(t), steps, after);
    steps := Prepend(s, Check(w), steps, after);
  }

  lemma {:induction false} PickedWhileLeaving(s: State, w: nat, t: nat, e: EntryId)
    returns (steps: seq<Step>, after: State)
    requires Inv(s) && w in s.pollers && s.pollers[w] == Cleared
    requires t in s.tasks && s.tasks[t] == Task(e, Leaving) && IsNext(s.rows, None, {}, e)
    ensures Run(s, steps, after) && Inv(after)
    ensures s.nextTask in after.tasks && after.tasks[s.nextTask] == Task(e, Started) && e !in after.active
  {
    DoKeeps(s, Pick(w, None, {}, e));
    steps, after := StartedWhileLeaving(Do(s, Pick(w, None, {}, e)), w, t, e);
    steps := Prepend(s, Pick(w, None, {}, e), steps, after);
  }

  lemma {:induction false} StartedWhileLeaving(s: State, w: nat, t: nat, e: EntryId)
    returns (steps: seq<Step>, after: State)
    requires Inv(s) && w in s.pollers && s.pollers[w] == Dispatching(e)
    requires t in s.tasks && s.tasks[t] == Task(e, Leaving)
    ensures Run(s, steps, after) && Inv(after)
    ensures s.nextTask in after.tasks && after.tasks[s.nextTask] == Task(e, Started) && e !in after.active
  {
    DoKeeps(s, Start(w));
    var mid := Do(s, Start(w));
    DoKeeps(mid, Finish(t));
    after := Do(mid, Finish(t));
    steps := [Start(w), Finish(t)];
    TwoSteps(s, Start(w), Finish(t));
  }

  lemma {:induction false} FailedIsNext(s: State, e: EntryId)
    requires e in s.rows && s.rows[e].attempts < s.rows[e].maxAttempts
    requires forall x :: x in s.rows && x != e && s.rows[x].status == Pending ==> Sooner(s.rows, e, x)
    ensures IsNext(s.rows[e := AfterFailure(s.rows[e])], None, {}, e)
  {
  }

  lemma {:induction false} Prepend(s: State, step: Step, steps: seq<Step>, after: State) returns (all: seq<Step>)
    requires Placed(s) && Enabled(s, step) && Run(Do(s, step), steps, after)
    ensures Run(s, all, after)
  {
    all := [step] + steps;
    assert all[0] == step && all[1..] == steps;
  }

  /** It happens: a run from the empty queue leads to a task that has just started and is not in
      the active set. */
  lemma {:induction false} UncountedRun() returns (steps: seq<Step>, s: State, t: nat)
    ensures Run(Initial({0}), steps, s) && AtPhase(s, t, Started) && s.tasks[t].entry !in s.active
  {
    var calling, s1 := OneCall({0}, 0);
    var failing;
    failing, s := RetriedTaskUncounted(s1, 0, 0);
    RunAppend(Initial({0}), calling, s1, failing, s);
    steps, t := calling + failing, s1.nextTask;
  }

  /** The active set knows the lead of every task. */
  ghost predicate Counted(s: State) {
    forall t :: t in s.tasks ==> s.tasks[t].entry in s.active
  }

  /** The step finishes a task whose lead another task has as well. */
  ghost predicate FinishesTwin(s: State, step: Step) {
    && step.Finish? && step.task in s.tasks
    && exists u :: u in s.tasks && u != step.task && s.tasks[u].entry == s.tasks[step.task].entry
  }

  /** The set stops knowing a task exactly when a task finishes whose lead was picked again. */
  lemma {:induction false} CountedIff(s: State, step: Step)
    requires Inv(s) && Enabled(s, step) && Counted(s)
    ensures Counted(Do(s, step)) <==> !FinishesTwin(s, step)
  {
    if step.Finish? {
      FinishCountedIff(s, step.task);
    } else if OfOneTask(step) {
      TaskStepCounted(s, step);
    } else {
      OtherStepCounted(s, step);
    }
  }

  lemma {:induction false} TaskStepCounted(s: State, step: Step)
    requires Placed(s) && Enabled(s, step) && Counted(s) && OfOneTask(step)
    ensures Counted(Do(s, step))
  {
  }

  lemma {:induction false} OtherStepCounted(s: State, step: Step)
    requires Placed(s) && Enabled(s, step) && Counted(s) && !OfOneTask(step) && !step.Finish?
    ensures Counted(Do(s, step))
  {
  }

  lemma {:induction false} FinishCountedIff(s: State, t: nat)
    requires Placed(s) && Enabled(s, Finish(t)) && Counted(s)
    ensures Counted(Do(s, Finish(t))) <==> !FinishesTwin(s, Finish(t))
  {
    var after, e := Do(s, Finish(t)), s.tasks[t].entry;
    assert after.tasks == s.tasks - {t} && after.active == s.active - {e};
    if u :| u in s.tasks && u != t && s.tasks[u].entry == e {
      assert u in after.tasks && after.tasks[u].entry !in after.active;
    }
  }

  ghost predicate CountedThroughout(s: State, steps: seq<Step>, after: State)
    requires Run(s, steps, after)
    decreases |steps|
  {
    Counted(s) && (steps != [] ==> CountedThroughout(Do(s, steps[0]), steps[1..], after))
  }

  ghost predicate FinishesSomeTwin(s: State, steps: seq<Step>, after: State)
    requires Run(s, steps, after)
    decreases |steps|
  {
    steps != [] && (FinishesTwin(s, steps[0]) || FinishesSomeTwin(Do(s, steps[0]), steps[1..], after))
  }

  lemma {:induction false} RunCountedIff(s: State, steps: seq<Step>, after: State)
    requires Inv(s) && Counted(s) && Run(s, steps, after)
    ensures CountedThroughout(s, steps, after) <==> !FinishesSomeTwin(s, steps, after)
    decreases |steps|
  {
    if steps != [] {
      DoKeeps(s, steps[0]);
      CountedIff(s, steps[0]);
      if Counted(Do(s, steps[0])) {
        RunCountedIff(Do(s, steps[0]), steps[1..], after);
      } else {
        assert !CountedThroughout(Do(s, steps[0]), steps[1..], after);
      }
    }
  }

  /** In a run from the empty queue the active set knows every running task all the time exactly
      when no task finishes after its lead was picked again. */
  lemma {:induction false} ActiveSetCountsIff(pollers: set<nat>, steps: seq<Step>, s: State)
    requires Run(Initial(pollers), steps, s)
    ensures CountedThroughout(Initial(pollers), steps, s) <==> !FinishesSomeTwin(Initial(pollers), steps, s)
  {
    InitialInv(pollers);
    RunCountedIff(Initial(pollers), steps, s);
  }
}
