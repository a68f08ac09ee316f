/** One executor dialling a campaign while the world around it pauses, stops and restarts the
    campaign and settles calls between any two of its database accesses. */
module DialLoop {

  import opened Basics

  type CallId = nat

  datatype CampaignStatus = Draft | Scheduled | Running | Paused | Stopped | Completed | Failed | Unknown

  datatype CallStatus = Pending | Calling | Answered | Voicemail | CallFailed | Skipped

  /** How a placement goes: refused for lack of credit, no number to call from, accepted by
      the provider, or an exception after the voice session was linked. */
  datatype Placement = NoCredit | NoNumber | Accepted | Broken

  /** One move of the surroundings: a new campaign status, if any, and calls being settled. */
  datatype Move = Move(status: Option<CampaignStatus>, settled: map<CallId, CallStatus>)

  /** What happened, in order: the campaign came to be in a status, the dial loop looked at that
      status, or it attempted a call. */
  datatype Event =
    | Now(status: CampaignStatus)
    | Look(verdict: CampaignStatus, time: nat)
    | Attempt(call: CallId)

  /** Webhooks reach calls with a linked voice session, a retry reaches failed calls; neither
      ever sets a call to calling. */
  predicate Reachable(calls: map<CallId, CallStatus>, linked: set<CallId>, c: CallId) {
    c in calls && (c in linked || calls[c] == CallFailed)
  }

  function Settle(calls: map<CallId, CallStatus>, linked: set<CallId>, settled: map<CallId, CallStatus>)
    : map<CallId, CallStatus>
  {
    map c | c in calls ::
      if Reachable(calls, linked, c) && c in settled && settled[c] != Calling then settled[c] else calls[c]
  }

  function InCalling(calls: map<CallId, CallStatus>): set<CallId> {
    set c | c in calls && calls[c] == Calling
  }

  /** Where the dial loop stands: may it attempt a call, did it keep to its rule so far, and when
      was its last look. */
  datatype Loop = Loop(licensed: bool, sound: bool, asked: Option<Event>)

  /** How many events there have been since the last look or attempt, and whether the campaign came
      to be in another status than running meanwhile. */
  datatype Wait = Wait(moves: nat, interrupted: bool)

  function Longer(w: Wait, s: CampaignStatus): Wait {
    Wait(w.moves + 1, w.interrupted || s != Running)
  }

  /** A wait that may end without a free slot: it was interrupted, or as long as waits can be. */
  predicate GivesUp(w: Wait) {
    w.interrupted || w.moves >= LONGEST_WAIT
  }

  /** What a log adds up to: the attempts; how many of them since the campaign last was running, and
      whether they never were more than one; where the loop and the wait stand; and how many attempts
      came right after a wait that gave up. */
  datatype Account = Account(attempts: seq<CallId>, trailing: nat, prompt: bool, loop: Loop, wait: Wait,
                             bypasses: nat)

  function AccountOf(log: seq<Event>): Account {
    if log == [] then Account([], 0, true, Loop(false, true, None), Wait(0, false), 0)
    else
      var n := |log| - 1;
      Entered(AccountOf(log[..n]), if n > 0 then Some(log[n - 1]) else None, log[n])
  }

  /** The rule of the loop: a look sees the status the campaign has just come to be in, and each
      attempt takes a look of its own that saw the campaign running. */
  function Entered(a: Account, latest: Option<Event>, e: Event): Account {
    match e
    case Now(s) =>
      a.(trailing := if s == Running then 0 else a.trailing, wait := Longer(a.wait, s))
    case Look(verdict, _) =>
      a.(loop := Loop(verdict == Running, a.loop.sound && latest == Some(Now(verdict)), Some(e)),
         wait := Wait(0, false))
    case Attempt(c) =>
      Account(a.attempts + [c], a.trailing + 1, a.prompt && a.trailing == 0,
              Loop(false, a.loop.sound && a.loop.licensed, a.loop.asked), Wait(0, false),
              a.bypasses + if GivesUp(a.wait) then 1 else 0)
  }

  function Attempts(log: seq<Event>): seq<CallId> {
    AccountOf(log).attempts
  }

  /** Attempts since the campaign last was running. */
  function Trailing(log: seq<Event>): nat {
    AccountOf(log).trailing
  }

  function Looping(log: seq<Event>): Loop {
    AccountOf(log).loop
  }

  function Waiting(log: seq<Event>): Wait {
    AccountOf(log).wait
  }

  function Bypasses(log: seq<Event>): nat {
    AccountOf(log).bypasses
  }

  /** The attempts that may have gone out without a free slot; without a limit none is awaited. */
  function Unslotted(log: seq<Event>, limit: int): nat {
    if limit > 0 then Bypasses(log) else |Attempts(log)|
  }

  /** At no moment had more than one call been attempted since the campaign last ran. */
  predicate Prompt(log: seq<Event>) {
    AccountOf(log).prompt
  }

  lemma {:induction false} PromptIs(log: seq<Event>)
    ensures Prompt(log) <==> forall k :: 0 <= k <= |log| ==> Trailing(log[..k]) <= 1
  {
    if log == [] {
      assert forall k :: 0 <= k <= |log| ==> log[..k] == [];
    } else {
      var n := |log| - 1;
      PromptIs(log[..n]);
      assert forall k :: 0 <= k <= n ==> log[..n][..k] == log[..k];
      assert log[..n + 1] == log;
      assert Trailing(log) <= 1 ==> Trailing(log[..n]) <= 1 || !log[n].Attempt?;
    }
  }

  lemma {:induction false} Appended(log: seq<Event>, e: Event)
    ensures Trailing(log + [e]) == match e case Attempt(_) => Trailing(log) + 1
                                          case Look(_, _) => Trailing(log)
                                          case Now(s) => if s == Running then 0 else Trailing(log)
    ensures Attempts(log + [e]) == Attempts(log) + if e.Attempt? then [e.call] else []
    ensures Looping(log + [e]) ==
            match e
            case Now(_) => Looping(log)
            case Look(verdict, time) =>
              Loop(verdict == Running, Looping(log).sound && log != [] && log[|log| - 1] == Now(verdict), Some(e))
            case Attempt(_) => Loop(false, Looping(log).sound && Looping(log).licensed, Looping(log).asked)
    ensures Waiting(log + [e]) == if e.Now? then Longer(Waiting(log), e.status) else Wait(0, false)
    ensures Bypasses(log + [e]) == Bypasses(log) + if e.Attempt? && GivesUp(Waiting(log)) then 1 else 0
    ensures Prompt(log + [e]) <==> Prompt(log) && (e.Attempt? ==> Trailing(log) == 0)
  {
    assert (log + [e])[..|log + [e]| - 1] == log;
  }

  /** How all this starts, and what counts as being in calling. */
  lemma {:induction false} Beginnings(calls: map<CallId, CallStatus>, c: CallId)
    ensures Attempts([]) == [] && Trailing([]) == 0 && Looping([]) == Loop(false, true, None)
    ensures Waiting([]) == Wait(0, false) && Bypasses([]) == 0
    ensures c in InCalling(calls) <==> c in calls && calls[c] == Calling
  {
  }

  /** In a sound log each attempt follows a look of its own: it saw the campaign running, the
      campaign was running just then, and no call was attempted in between. */
  lemma {:induction false} AttemptsAreLicensed(log: seq<Event>, b: nat) returns (a: nat)
    requires Looping(log).sound && b < |log| && log[b].Attempt?
    ensures 0 < a < b && log[a].Look? && log[a].verdict == Running && log[a - 1] == Now(Running)
    ensures forall k :: a < k < b ==> !log[k].Attempt? && !log[k].Look?
  {
    SoundBefore(log, b + 1);
    assert log[..b + 1][..b] == log[..b];
    a := LicensedBy(log[..b]);
  }

  lemma {:induction false} SoundBefore(log: seq<Event>, n: nat)
    requires Looping(log).sound && n <= |log|
    ensures Looping(log[..n]).sound
  {
    if n < |log| {
      SoundBefore(log[..|log| - 1], n);
      assert log[..|log| - 1][..n] == log[..n];
    } else {
      assert log[..n] == log;
    }
  }

  lemma {:induction false} LicensedBy(log: seq<Event>) returns (a: nat)
    requires Looping(log).sound && Looping(log).licensed
    ensures 0 < a < |log| && log[a].Look? && log[a].verdict == Running && log[a - 1] == Now(Running)
    ensures forall k :: a < k < |log| ==> !log[k].Attempt? && !log[k].Look?
  {
    var n := |log| - 1;
    if log[n].Look? {
      a := n;
    } else {
      a := LicensedBy(log[..n]);
    }
  }

  /** A stop or pause that a later look no longer saw was taken back before that look. */
  lemma {:induction false} EarlyStopsAreHeeded(log: seq<Event>, j: nat, k: nat)
    requires Looping(log).sound && j < k < |log|
    requires log[j].Now? && log[j].status != Running && log[k].Look? && log[k].verdict == Running
    ensures exists m :: j < m < k && log[m] == Now(Running)
  {
    SoundBefore(log, k + 1);
    assert log[..k + 1][k - 1] == log[k - 1] == Now(Running);
  }

  /** The last look is the one the loop remembers. */
  lemma {:induction false} AskedLast(log: seq<Event>) returns (a: nat)
    requires Looping(log).asked.Some?
    ensures a < |log| && log[a].Look? && log[a] == Looping(log).asked.value
    ensures forall k :: a < k < |log| ==> !log[k].Look?
  {
    var n := |log| - 1;
    if log[n].Look? {
      a := n;
    } else {
      a := AskedLast(log[..n]);
    }
  }

  /** A stretch of the log without a running moment contains at most one attempt. */
  lemma {:induction false} QuietStretch(log: seq<Event>, from: nat, to: nat)
    requires Prompt(log) && from <= to <= |log|
    requires forall i :: from <= i < to ==> log[i] != Now(Running)
    ensures |Attempts(log[..to])| - |Attempts(log[..from])| <= 1
  {
    PromptIs(log);
    TrailingCounts(log, from, to);
  }

  lemma {:induction false} TrailingCounts(log: seq<Event>, from: nat, to: nat)
    requires from <= to <= |log|
    requires forall i :: from <= i < to ==> log[i] != Now(Running)
    ensures Trailing(log[..to]) == Trailing(log[..from]) + |Attempts(log[..to])| - |Attempts(log[..from])|
  {
    if from < to {
      TrailingCounts(log, from, to - 1);
      assert log[..to] == log[..to - 1] + [log[to - 1]];
      Appended(log[..to - 1], log[to - 1]);
    }
  }

  /** Without a new attempt there is no new bypass. */
  lemma {:induction false} NoneBypassed(before: seq<Event>, log: seq<Event>)
    requires before <= log && |Attempts(log)| == |Attempts(before)|
    ensures Bypasses(log) == Bypasses(before)
  {
    if |before| < |log| {
      var shorter := log[..|log| - 1];
      AttemptsGrow(before, shorter);
      NoneBypassed(before, shorter);
    } else {
      assert log == before;
    }
  }

  lemma {:induction false} UnslottedGrow(before: seq<Event>, log: seq<Event>, limit: int)
    requires before <= log
    ensures Unslotted(before, limit) <= Unslotted(log, limit)
  {
    if |before| < |log| {
      UnslottedGrow(before, log[..|log| - 1], limit);
    } else {
      assert log == before;
    }
  }

  lemma {:induction false} AttemptsGrow(before: seq<Event>, log: seq<Event>)
    requires before <= log
    ensures |Attempts(before)| <= |Attempts(log)|
  {
    if |before| < |log| {
      AttemptsGrow(before, log[..|log| - 1]);
    } else {
      assert log == before;
    }
  }

  /** From that position on the campaign was running until the last attempt, and no attempt followed
      a wait as long as waits can be. */
  ghost predicate Undisturbed(from: nat, log: seq<Event>) {
    forall k :: from <= k < |log| && log[k].Attempt? ==>
      Waiting(log[..k]).moves < LONGEST_WAIT && AlwaysRunning(from, k, log)
  }

  ghost predicate AlwaysRunning(from: nat, to: nat, log: seq<Event>) {
    forall i :: from <= i < to && i < |log| && log[i].Now? ==> log[i].status == Running
  }

  /** Then no call bypassed the wait. */
  lemma {:induction false} NoneBypassedUndisturbed(before: seq<Event>, log: seq<Event>)
    requires before <= log && Looping(log).sound && !Looping(before).licensed && Undisturbed(|before|, log)
    ensures Bypasses(log) == Bypasses(before)
  {
    if |before| < |log| {
      var n := |log| - 1;
      var shorter := log[..n];
      forall k | |before| <= k < n && shorter[k].Attempt?
        ensures Waiting(shorter[..k]).moves < LONGEST_WAIT && AlwaysRunning(|before|, k, shorter)
      {
        assert shorter[..k] == log[..k] && AlwaysRunning(|before|, k, log);
      }
      NoneBypassedUndisturbed(before, shorter);
      if log[n].Attempt? {
        assert AlwaysRunning(|before|, n, log);
        NotInterrupted(before, shorter);
      }
    } else {
      assert log == before;
    }
  }

  /** The same from an earlier position on, and what it means for the limit. */
  lemma {:induction false} WithinLimit(
    from: nat, before: seq<Event>, log: seq<Event>, limit: int, first: nat, peak: nat)
    requires before <= log && Looping(log).sound && !Looping(before).licensed && from <= |before|
    requires peak + Unslotted(before, limit) <= Max(first, limit) + Unslotted(log, limit)
    ensures limit > 0 && first <= limit && Undisturbed(from, log) ==> peak <= limit
  {
    if limit > 0 && Undisturbed(from, log) {
      forall k | |before| <= k < |log| && log[k].Attempt?
        ensures Waiting(log[..k]).moves < LONGEST_WAIT && AlwaysRunning(|before|, k, log)
      {
        assert AlwaysRunning(from, k, log);
      }
      NoneBypassedUndisturbed(before, log);
    }
  }

  lemma {:induction false} NotInterrupted(before: seq<Event>, log: seq<Event>)
    requires before <= log && !Looping(before).licensed && Looping(log).licensed
    requires forall i :: |before| <= i < |log| && log[i].Now? ==> log[i].status == Running
    ensures !Waiting(log).interrupted
  {
    if log == before {
      assert false;
    } else if log[|log| - 1].Now? {
      NotInterrupted(before, log[..|log| - 1]);
    }
  }

  // ------------------------------------------------------------------
  // The surroundings
  // ------------------------------------------------------------------

  /** The campaign status after the move at this time; when the script is over nothing moves. */
  function Next(s: CampaignStatus, script: seq<Move>, time: nat): CampaignStatus {
    if time < |script| && script[time].status.Some? then script[time].status.value else s
  }

  /** The status when the moves from one time up to another are made and no one else writes it. */
  function After(script: seq<Move>, s: CampaignStatus, from: nat, until: nat): CampaignStatus
    decreases until
  {
    if until <= from then s else Next(After(script, s, from, until - 1), script, until - 1)
  }

  lemma {:induction false} AfterBoth(script: seq<Move>, s: CampaignStatus, from: nat, mid: nat, until: nat)
    requires from <= mid <= until
    ensures After(script, s, from, until) == After(script, After(script, s, from, mid), mid, until)
    decreases until
  {
    if mid < until {
      AfterBoth(script, s, from, mid, until - 1);
    }
  }

  /** The status of a call in reach after the move at this time. */
  function Told(script: seq<Move>, time: nat, c: CallId, s: CallStatus): CallStatus {
    if time < |script| && c in script[time].settled && script[time].settled[c] != Calling
    then script[time].settled[c] else s
  }

  /** What becomes of a call placed at this time: the surroundings reach it between its marking and
      its linking only if it had been linked before, and afterwards in any case. */
  function Outcome(script: seq<Move>, time: nat, linked: bool, c: CallId, how: Placement): CallStatus {
    if how != Accepted then CallFailed
    else Told(script, time + 1, c, if linked then Told(script, time, c, Calling) else Calling)
  }

  // ------------------------------------------------------------------
  // The snapshot
  // ------------------------------------------------------------------

  ghost predicate Least(S: set<CallId>, m: CallId) {
    m in S && forall x :: x in S ==> m <= x
  }

  lemma {:induction false} LeastExists(S: set<CallId>)
    requires S != {}
    ensures exists m :: Least(S, m)
  {
    ForemostExists(S, c => 0);
    var m :| Foremost(S, c => 0, m);
    assert Least(S, m);
  }

  function Oldest(S: set<CallId>): (m: CallId)
    requires S != {}
    ensures m in S
  {
    LeastExists(S);
    ghost var least :| Least(S, least);
    var m :| m in S && forall x :: x in S ==> m <= x;
    m
  }

  /** Call ids grow with created_at. */
  function InOrder(S: set<CallId>): seq<CallId> {
    if S == {} then [] else [Oldest(S)] + InOrder(S - {Oldest(S)})
  }

  lemma {:induction false} InOrderLists(S: set<CallId>)
    ensures forall x :: x in InOrder(S) <==> x in S
    ensures Increasing(InOrder(S))
  {
    if S != {} {
      var m := Oldest(S);
      InOrderLists(S - {m});
      assert InOrder(S) == [m] + InOrder(S - {m});
      LeastExists(S);
      var least :| Least(S, least);
      forall j | 0 < j < |InOrder(S)| ensures m < InOrder(S)[j] {
        assert InOrder(S)[j] == InOrder(S - {m})[j - 1];
        assert InOrder(S)[j] in InOrder(S - {m});
      }
    }
  }

  function PendingCalls(calls: map<CallId, CallStatus>): seq<CallId> {
    InOrder(set c | c in calls && calls[c] == Pending)
  }

  lemma {:induction false} PendingListed(calls: map<CallId, CallStatus>)
    ensures forall c :: c in PendingCalls(calls) <==> c in calls && calls[c] == Pending
    ensures Increasing(PendingCalls(calls))
  {
    InOrderLists(set c | c in calls && calls[c] == Pending);
  }

  const MAX_WAIT := 180
  const WAIT_STEP := 3

  /** The events from a look to the attempt after a capped wait: two for each round, and one move
      before and one after the rounds. */
  const LONGEST_WAIT := 122

  /** The most moves during so many rounds of the dial loop: one more before the look, two while the
      call is placed, and one after it. */
  function LongestRounds(n: nat): nat {
    126 * n
  }

  /** The state in which the dial loop begins. */
  datatype Begin = Begin(status: CampaignStatus, calls: map<CallId, CallStatus>, linked: set<CallId>, clock: nat,
                         log: seq<Event>, peak: nat)

  /** From one state to the other only the surroundings moved. */
  ghost predicate TimePasses(script: seq<Move>, b: Begin, e: Begin) {
    && e.calls.Keys == b.calls.Keys && e.linked == b.linked && e.peak == b.peak
    && InCalling(e.calls) <= InCalling(b.calls)
    && (forall c :: c in b.calls && !Reachable(b.calls, b.linked, c) ==> e.calls[c] == b.calls[c])
    && e.clock >= b.clock && e.status == After(script, b.status, b.clock, e.clock)
    && b.log <= e.log && Attempts(e.log) == Attempts(b.log) && Looping(e.log) == Looping(b.log)
    && (Prompt(b.log) ==> Prompt(e.log)) && Trailing(e.log) <= Trailing(b.log)
    && Bypasses(e.log) == Bypasses(b.log)
    && Waiting(e.log).moves == Waiting(b.log).moves + e.clock - b.clock
  }

  lemma {:induction false} MoreTimePasses(script: seq<Move>, b: Begin, m: Begin, e: Begin)
    requires TimePasses(script, b, m) && TimePasses(script, m, e)
    ensures TimePasses(script, b, e)
  {
    AfterBoth(script, b.status, b.clock, m.clock, e.clock);
  }

  class Campaign {
    var status: CampaignStatus
    var calls: map<CallId, CallStatus>
    var linked: set<CallId>
    const script: seq<Move>         // what the surroundings do; any list at all
    var clock: nat                  // how many of their moves are over
    ghost var log: seq<Event>
    ghost var peak: nat             // the most calls there have been in calling at once

    constructor (status: CampaignStatus, calls: map<CallId, CallStatus>, linked: set<CallId>, script: seq<Move>)
      ensures this.status == status && this.calls == calls && this.linked == linked && this.script == script
      ensures clock == 0
      ensures log == [] && Prompt(log) && Looping(log).sound && peak == |InCalling(calls)|
    {
      this.status, this.calls, this.linked, this.script, clock := status, calls, linked, script, 0;
      log, peak := [], |InCalling(calls)|;
    }

    /** Some time passes: the surroundings make their next move. */
    method Elapse()
      modifies this`status, this`calls, this`clock, this`log
      ensures calls.Keys == old(calls).Keys
      ensures InCalling(calls) <= InCalling(old(calls))
      ensures forall c :: c in old(calls) && !Reachable(old(calls), linked, c) ==> calls[c] == old(calls)[c]
      ensures forall c :: Reachable(old(calls), linked, c) ==> calls[c] == Told(script, old(clock), c, old(calls)[c])
      ensures clock == old(clock) + 1 && status == Next(old(status), script, old(clock))
      ensures status == After(script, old(status), old(clock), clock)
      ensures log == old(log) + [Now(status)]
      ensures Attempts(log) == Attempts(old(log)) && Looping(log) == Looping(old(log))
      ensures Prompt(old(log)) ==> Prompt(log)
      ensures Trailing(log) <= Trailing(old(log))
      ensures Waiting(log) == Longer(Waiting(old(log)), status) && Bypasses(log) == Bypasses(old(log))
    {
      assert After(script, status, clock, clock) == status;
      if clock < |script| {
        var move := script[clock];
        if move.status.Some? {
          status := move.status.value;
        }
        calls := Settle(calls, linked, move.settled);
      }
      clock := clock + 1;
      ghost var before := log;
      log := log + [Now(status)];
      Appended(before, Now(status));
    }

    ghost function Here(): Begin
      reads this
    {
      Begin(status, calls, linked, clock, log, peak)
    }

    /** One more move. */
    method Pass(ghost b: Begin)
      requires TimePasses(script, b, Here())
      modifies this`status, this`calls, this`clock, this`log
      ensures TimePasses(script, b, Here()) && clock == old(clock) + 1
      ensures InCalling(calls) <= InCalling(old(calls))
      ensures Waiting(log).interrupted <==> Waiting(old(log)).interrupted || status != Running
    {
      ghost var now := Here();
      Elapse();
      MoreTimePasses(script, b, now, Here());
    }

    /** `_wait_for_concurrency_slot`: at most 60 rounds; `free` tells whether a look saw a slot. */
    method WaitForSlot(limit: int) returns (ghost free: bool)
      modifies this`status, this`calls, this`clock, this`log
      ensures TimePasses(script, old(Here()), Here()) && clock - old(clock) <= LONGEST_WAIT - 2
      ensures limit <= 0 || |InCalling(old(calls))| < limit ==> clock == old(clock)
      ensures free ==> |InCalling(calls)| < limit
      ensures !free && limit > 0 ==> Waiting(log).interrupted || clock - old(clock) == LONGEST_WAIT - 2
    {
      ghost var begin, rounds := Here(), 0;
      free := false;
      if limit <= 0 {
        return;
      }
      var waited := 0;
      while waited < MAX_WAIT
        invariant waited == WAIT_STEP * rounds <= MAX_WAIT && clock == begin.clock + 2 * rounds
        invariant TimePasses(script, begin, Here())
        invariant if waited == 0 then calls == begin.calls else |InCalling(begin.calls)| >= limit
        decreases MAX_WAIT - waited
      {
        var seen, left := WaitRound(limit, begin);
        if seen || left {
          free := seen;
          return;
        }
        waited := waited + WAIT_STEP;
        rounds := rounds + 1;
      }
    }

    /** A round of the wait: a look, a status read and a sleep, with a move before each of the
        latter two. It ends the wait if a slot was seen, or the campaign in another status. */
    method WaitRound(limit: int, ghost begin: Begin) returns (seen: bool, left: bool)
      requires TimePasses(script, begin, Here())
      modifies this`status, this`calls, this`clock, this`log
      ensures TimePasses(script, begin, Here())
      ensures seen <==> |InCalling(old(calls))| < limit
      ensures seen ==> calls == old(calls)
      ensures left ==> !seen && Waiting(log).interrupted
      ensures clock == old(clock) + if seen then 0 else if left then 1 else 2
    {
      var busy := |InCalling(calls)|;
      if busy < limit {
        return true, false;
      }
      Pass(begin);
      if status != Running {
        return false, true;
      }
      Pass(begin);
      return false, false;
    }

    /** UPDATE of one call to a status other than calling. */
    method SetCall(c: CallId, to: CallStatus)
      requires c in calls && to != Calling
      modifies this`calls
      ensures calls == old(calls)[c := to] && InCalling(calls) <= InCalling(old(calls))
    {
      calls := calls[c := to];
    }

    /** The call is attempted; unless the credit gate refuses, it is marked as calling. */
    method Attempting(c: CallId, how: Placement) returns (refused: bool)
      requires c in calls && Prompt(log) && Trailing(log) == 0 && |InCalling(calls)| <= peak
      modifies this`calls, this`log, this`peak
      ensures Looping(log) == Spent(Looping(old(log)))
      ensures refused <==> how == NoCredit
      ensures calls == old(calls)[c := if refused then CallFailed else Calling]
      ensures old(log) <= log && Attempts(log) == Attempts(old(log)) + [c] && Prompt(log)
      ensures peak == Max(old(peak), if refused then 0 else |InCalling(calls)|)
      ensures |InCalling(calls)| <= peak && old(peak) <= peak <= Max(old(peak), |InCalling(old(calls))| + 1)
      ensures Bypasses(log) == Bypasses(old(log)) + if GivesUp(Waiting(old(log))) then 1 else 0
    {
      ghost var before, most := log, InCalling(calls);
      log := log + [Attempt(c)];
      Appended(before, Attempt(c));
      refused := how == NoCredit;
      calls := calls[c := if refused then CallFailed else Calling];
      peak := Max(peak, if refused then 0 else |InCalling(calls)|);
      SubsetSize(InCalling(calls), if refused then most else most + {c});
    }

    /** What follows once the call is marked: a number for it, or failure. */
    method Conclude(c: CallId, how: Placement)
      requires c in calls && calls[c] == Calling && how != NoCredit && Prompt(log)
      modifies this`status, this`calls, this`linked, this`clock, this`log
      ensures clock >= old(clock) && status == After(script, old(status), old(clock), clock)
      ensures calls.Keys == old(calls).Keys
      ensures linked == if how == Accepted || how == Broken then old(linked) + {c} else old(linked)
      ensures calls[c] == Outcome(script, old(clock), c in old(linked), c, how)
      ensures clock == old(clock) + if how == NoNumber then 1 else 2
      ensures forall x :: x in old(calls) && x != c && !Reachable(old(calls), old(linked), x) ==>
                            calls[x] == old(calls)[x]
      ensures old(log) <= log && Attempts(log) == Attempts(old(log)) && Prompt(log)
      ensures Looping(log) == Looping(old(log))
      ensures Bypasses(log) == Bypasses(old(log))
      ensures InCalling(calls) <= InCalling(old(calls))
    {
      ghost var status0, clock0 := status, clock;
      Elapse();
      assert calls[c] == if c in linked then Told(script, clock0, c, Calling) else Calling;
      if how == NoNumber {
        SetCall(c, CallFailed);
        assert calls[c] == Outcome(script, clock0, c in old(linked), c, how);
      } else {
        ghost var status1, clock1 := status, clock;
        Connect(c, how);
        assert calls[c] == Outcome(script, clock0, c in old(linked), c, how);
        AfterBoth(script, status0, clock0, clock1, clock);
      }
    }

    /** The voice session is linked and the provider asked; an exception fails the call. */
    method Connect(c: CallId, how: Placement)
      requires c in calls && Prompt(log)
      modifies this`status, this`calls, this`linked, this`clock, this`log
      ensures clock >= old(clock) && status == After(script, old(status), old(clock), clock)
      ensures calls.Keys == old(calls).Keys && linked == old(linked) + {c} && clock == old(clock) + 1
      ensures calls[c] == if how == Broken then CallFailed else Told(script, old(clock), c, old(calls)[c])
      ensures forall x :: x in old(calls) && x != c && !Reachable(old(calls), old(linked), x) ==>
                            calls[x] == old(calls)[x]
      ensures old(log) <= log && Attempts(log) == Attempts(old(log)) && Prompt(log)
      ensures Looping(log) == Looping(old(log))
      ensures Bypasses(log) == Bypasses(old(log))
      ensures InCalling(calls) <= InCalling(old(calls))
    {
      linked := linked + {c};
      Elapse();
      assert calls[c] == Told(script, old(clock), c, old(calls)[c]);
      if how == Broken {
        SetCall(c, CallFailed);
      }
    }

    /** `_place_call_safe`. */
    method PlaceCall(c: CallId, how: Placement)
      requires c in calls && Prompt(log) && Trailing(log) == 0
      requires |InCalling(calls)| <= peak
      modifies this`status, this`calls, this`linked, this`clock, this`log, this`peak
      ensures Looping(log) == Spent(Looping(old(log)))
      ensures clock >= old(clock) && status == After(script, old(status), old(clock), clock)
      ensures calls.Keys == old(calls).Keys
      ensures linked == if how == Accepted || how == Broken then old(linked) + {c} else old(linked)
      ensures calls[c] == Outcome(script, old(clock), c in old(linked), c, how) && clock <= old(clock) + 2
      ensures forall x :: x in old(calls) && x != c && !Reachable(old(calls), old(linked), x) ==>
                            calls[x] == old(calls)[x]
      ensures old(log) <= log && Attempts(log) == Attempts(old(log)) + [c] && Prompt(log)
      ensures how in {NoCredit, NoNumber, Broken} ==> calls[c] == CallFailed
      ensures how == Accepted && (forall t :: old(clock) <= t < clock && t < |script| ==> c !in script[t].settled) ==>
                calls[c] == Calling
      ensures Bypasses(log) == Bypasses(old(log)) + if GivesUp(Waiting(old(log))) then 1 else 0
      ensures |InCalling(calls)| <= peak && old(peak) <= peak <= Max(old(peak), |InCalling(old(calls))| + 1)
    {
      var refused := Attempting(c, how);
      if !refused {
        ghost var marked := InCalling(calls);
        Conclude(c, how);
        SubsetSize(InCalling(calls), marked);
      }
    }

    /** One round of the dial loop: read the status, wait for a slot, place the call, pause.
        `asked` is the time when the status was read. */
    method DialNext(c: CallId, limit: int, how: Placement)
      returns (proceed: bool, ghost asked: nat)
      requires c in calls && Prompt(log) && |InCalling(calls)| <= peak && Looping(log).sound
      modifies this`status, this`calls, this`linked, this`clock, this`log, this`peak
      ensures calls.Keys == old(calls).Keys && old(linked) <= linked <= old(linked) + {c}
      ensures forall x :: x in old(calls) && (x != c || !proceed) && !Reachable(old(calls), old(linked), x) ==>
                calls[x] == old(calls)[x] && (x == c ==> x !in linked)
      ensures old(log) <= log && Prompt(log)
      ensures Attempts(log) == Attempts(old(log)) + if proceed then [c] else []
      ensures Looping(log) == Loop(false, true, Some(Look(if proceed then Running else status, asked)))
      ensures |log| > |old(log)| && (proceed <==> log[|old(log)|] == Now(Running))
      ensures proceed <==> Next(old(status), script, old(clock)) == Running
      ensures asked == old(clock) + 1
      ensures proceed ==> clock > asked && status == After(script, Running, asked, clock)
      ensures clock - old(clock) <= LongestRounds(1) && (!proceed ==> clock == asked)
      ensures limit <= 0 || |InCalling(old(calls))| < limit ==> clock <= asked + 5
      ensures !proceed ==> status != Running
      ensures log != [] && log[|log| - 1] == if proceed then Now(status) else Look(status, asked)
      ensures |InCalling(calls)| <= peak && old(peak) <= peak && (!proceed ==> peak == old(peak))
      ensures peak + Unslotted(old(log), limit) <= Max(old(peak), limit) + Unslotted(log, limit)
    {
      asked := LookAtStatus();
      if status != Running {
        proceed := false;
        assert Attempts(old(log)) + [] == Attempts(old(log));
        return;
      }
      proceed := true;
      DialNow(c, limit, how);
    }

    /** `_get_campaign_status`, after one more move. */
    method LookAtStatus() returns (ghost asked: nat)
      requires Prompt(log) && |InCalling(calls)| <= peak && Looping(log).sound
      modifies this`status, this`calls, this`clock, this`log
      ensures calls.Keys == old(calls).Keys
      ensures |InCalling(calls)| <= peak && |InCalling(calls)| <= |InCalling(old(calls))|
      ensures forall c :: c in old(calls) && !Reachable(old(calls), linked, c) ==> calls[c] == old(calls)[c]
      ensures clock == asked == old(clock) + 1 && status == Next(old(status), script, old(clock))
      ensures |log| == |old(log)| + 2 && old(log) <= log && Prompt(log)
      ensures log[|old(log)|] == Now(status) && log[|old(log)| + 1] == Look(status, asked)
      ensures Attempts(log) == Attempts(old(log)) && Bypasses(log) == Bypasses(old(log))
      ensures Looping(log) == Loop(status == Running, true, Some(Look(status, asked)))
      ensures status == Running ==> Trailing(log) == 0
    {
      ghost var most := InCalling(calls);
      Elapse();
      asked := clock;
      SubsetSize(InCalling(calls), most);
      ghost var log1 := log;
      log := log + [Look(status, asked)];
      Appended(old(log), Now(status));
      Appended(log1, Look(status, asked));
    }

    /** The rest of the round, once the status was read as running. Each database access is
        preceded by time passing, so a pause may come between any two of them. */
    method DialNow(c: CallId, limit: int, how: Placement)
      requires c in calls && Prompt(log) && Trailing(log) == 0 && |InCalling(calls)| <= peak
      modifies this`status, this`calls, this`linked, this`clock, this`log, this`peak
      ensures calls.Keys == old(calls).Keys && old(linked) <= linked <= old(linked) + {c}
      ensures forall x :: x in old(calls) && x != c && !Reachable(old(calls), old(linked), x) ==>
                            calls[x] == old(calls)[x]
      ensures old(log) < log && Prompt(log) && Attempts(log) == Attempts(old(log)) + [c]
      ensures Looping(log) == Spent(Looping(old(log)))
      ensures clock >= old(clock) && status == After(script, old(status), old(clock), clock)
      ensures old(clock) < clock <= old(clock) + LONGEST_WAIT + 3
      ensures limit <= 0 || |InCalling(old(calls))| < limit ==> clock <= old(clock) + 5
      ensures log[|log| - 1] == Now(status)
      ensures |InCalling(calls)| <= peak && old(peak) <= peak
      ensures peak + Unslotted(old(log), limit) <= Max(old(peak), limit) + Unslotted(log, limit)
    {
      ghost var status0, clock0 := status, clock;
      ghost var free := ReadySlot(limit);
      ghost var status1, clock1 := status, clock;
      PlaceAndSleep(c, how);
      AfterBoth(script, status0, clock0, clock1, clock);
    }

    /** The placement and the pause after it. */
    method PlaceAndSleep(c: CallId, how: Placement)
      requires c in calls && Prompt(log) && Trailing(log) == 0 && |InCalling(calls)| <= peak
      modifies this`status, this`calls, this`linked, this`clock, this`log, this`peak
      ensures calls.Keys == old(calls).Keys && old(linked) <= linked <= old(linked) + {c}
      ensures forall x :: x in old(calls) && x != c && !Reachable(old(calls), old(linked), x) ==>
                            calls[x] == old(calls)[x]
      ensures old(log) < log && Prompt(log) && Attempts(log) == Attempts(old(log)) + [c]
      ensures Looping(log) == Spent(Looping(old(log)))
      ensures old(clock) < clock <= old(clock) + 3 && status == After(script, old(status), old(clock), clock)
      ensures log[|log| - 1] == Now(status)
      ensures Bypasses(log) == Bypasses(old(log)) + if GivesUp(Waiting(old(log))) then 1 else 0
      ensures |InCalling(calls)| <= peak && old(peak) <= peak <= Max(old(peak), |InCalling(old(calls))| + 1)
    {
      ghost var status0, clock0 := status, clock;
      PlaceCall(c, how);
      ghost var placed, status1, clock1 := InCalling(calls), status, clock;
      Elapse();
      SubsetSize(InCalling(calls), placed);
      AfterBoth(script, status0, clock0, clock1, clock);
    }

    /** The wait, with time passing before its first look and after its last. */
    method ReadySlot(limit: int) returns (ghost free: bool)
      requires Prompt(log) && |InCalling(calls)| <= peak
      modifies this`status, this`calls, this`clock, this`log
      ensures calls.Keys == old(calls).Keys
      ensures InCalling(calls) <= InCalling(old(calls)) && |InCalling(calls)| <= peak
      ensures forall c :: c in old(calls) && !Reachable(old(calls), linked, c) ==> calls[c] == old(calls)[c]
      ensures clock >= old(clock) && status == After(script, old(status), old(clock), clock)
      ensures old(log) <= log && Attempts(log) == Attempts(old(log)) && Prompt(log)
      ensures Looping(log) == Looping(old(log)) && Bypasses(log) == Bypasses(old(log))
      ensures Trailing(log) <= Trailing(old(log))
      ensures clock <= old(clock) + LONGEST_WAIT
      ensures limit <= 0 || |InCalling(old(calls))| < limit ==> clock == old(clock) + 2
      ensures free ==> |InCalling(calls)| < limit
      ensures !free && limit > 0 ==> GivesUp(Waiting(log))
    {
      ghost var begin := Here();
      Pass(begin);
      ghost var waiting := Here();
      SubsetSize(InCalling(calls), InCalling(begin.calls));
      free := WaitForSlot(limit);
      ghost var waited := Here();
      MoreTimePasses(script, begin, waiting, waited);
      Pass(begin);
      SubsetSize(InCalling(calls), InCalling(waited.calls));
      SubsetSize(InCalling(calls), InCalling(begin.calls));
    }

    /** The dial loop of `start_campaign_standalone`: calls are attempted in snapshot order, each
        at most once; undialled calls are left alone; and the number in calling exceeds both its
        initial peak and the limit by no more than the attempts that bypassed the wait. */
    method Dial(snapshot: seq<CallId>, limit: int, how: map<CallId, Placement>)
      returns (halted: Option<CampaignStatus>, ghost done: nat, ghost asked: nat)
      requires forall i :: 0 <= i < |snapshot| ==> snapshot[i] in calls
      requires Increasing(snapshot)
      requires Prompt(log) && Looping(log).sound && |InCalling(calls)| <= peak
      requires log != [] && log[|log| - 1] == Now(status)
      modifies this`status, this`calls, this`linked, this`clock, this`log, this`peak
      ensures calls.Keys == old(calls).Keys
      ensures done <= |snapshot| && old(log) <= log && Attempts(log) == Attempts(old(log)) + snapshot[..done]
      ensures Prompt(log) && Looping(log).sound
      ensures log != [] && log[|log| - 1] == if halted.Some? then Look(status, asked) else Now(status)
      ensures snapshot != [] ==>
                Looping(log) == Loop(false, true, Some(Look(if halted.Some? then halted.value else Running, asked)))
      ensures snapshot == [] ==> log == old(log)
      ensures forall i :: done <= i < |snapshot| && !Reachable(old(calls), old(linked), snapshot[i]) ==>
                calls[snapshot[i]] == old(calls)[snapshot[i]] && snapshot[i] !in linked
      ensures halted == None <==> done == |snapshot|
      ensures halted.Some? ==> halted.value != Running && halted.value == status
      ensures |InCalling(calls)| <= peak
      ensures peak + Unslotted(old(log), limit) <= Max(old(peak), limit) + Unslotted(log, limit)
      ensures clock - old(clock) <= LongestRounds(|snapshot|)
      ensures done > 0 && halted == None ==> clock > asked && status == After(script, Running, asked, clock)
      ensures snapshot == [] ==> status == old(status) && clock == old(clock)
      ensures |snapshot| == 1 ==>
                asked == old(clock) + 1 && (halted == None <==> Next(old(status), script, old(clock)) == Running)
    {
      halted, done, asked := None, 0, 0;
      ghost var begin := Here();
      for i := 0 to |snapshot|
        invariant done == i && halted == None
        invariant Dialling(begin, snapshot, limit, i, i) && Proceeding(begin, i, asked)
      {
        var c := snapshot[i];
        var placement := if c in how then how[c] else Accepted;
        var proceed;
        proceed, asked := DialRound(c, limit, placement, begin, snapshot, i, asked);
        if !proceed {
          halted := Some(status);
          return;
        }
        done := i + 1;
      }
      assert snapshot[..|snapshot|] == snapshot;
    }

    /** What each round keeps when i calls were dialled since the beginning. */
    ghost predicate Dialling(b: Begin, snapshot: seq<CallId>, limit: int, i: nat, rounds: nat)
      reads this
      requires i <= |snapshot|
    {
      && calls.Keys == b.calls.Keys && b.log <= log && Prompt(log) && Looping(log).sound
      && Attempts(log) == Attempts(b.log) + snapshot[..i]
      && (forall j :: i <= j < |snapshot| && !Reachable(b.calls, b.linked, snapshot[j]) ==>
            snapshot[j] in calls && snapshot[j] in b.calls
            && calls[snapshot[j]] == b.calls[snapshot[j]] && snapshot[j] !in linked)
      && |InCalling(calls)| <= peak
      && peak + Unslotted(b.log, limit) <= Max(b.peak, limit) + Unslotted(log, limit)
      && clock - b.clock <= LongestRounds(rounds)
    }

    /** And where it leaves the campaign unless it halted. */
    ghost predicate Proceeding(b: Begin, i: nat, asked: nat)
      reads this
    {
      && log != [] && log[|log| - 1] == Now(status)
      && (if i == 0 then status == b.status && clock == b.clock && log == b.log
          else clock > asked && status == After(script, Running, asked, clock)
               && Looping(log) == Loop(false, true, Some(Look(Running, asked))))
      && (i == 1 ==> asked == b.clock + 1 && Next(b.status, script, b.clock) == Running)
    }

    /** One round as a step of the loop. */
    method DialRound(c: CallId, limit: int, how: Placement, ghost b: Begin, ghost snapshot: seq<CallId>, ghost i: nat,
                     ghost before: nat)
      returns (proceed: bool, ghost asked: nat)
      requires i < |snapshot| && snapshot[i] == c && Increasing(snapshot) && c in calls
      requires Dialling(b, snapshot, limit, i, i) && Proceeding(b, i, before)
      modifies this`status, this`calls, this`linked, this`clock, this`log, this`peak
      ensures Dialling(b, snapshot, limit, if proceed then i + 1 else i, i + 1)
      ensures if proceed then Proceeding(b, i + 1, asked)
              else status != Running && Attempts(log) == Attempts(old(log))
                   && log != [] && log[|log| - 1] == Look(status, asked)
                   && Looping(log) == Loop(false, true, Some(Look(status, asked)))
                   && (i == 0 ==> asked == b.clock + 1 && Next(b.status, script, b.clock) != Running)
      ensures old(log) <= log
    {
      UnslottedGrow(b.log, log, limit);
      proceed, asked := DialNext(c, limit, how);
      assert snapshot[..i + 1] == snapshot[..i] + [c];
      assert forall j :: i < j < |snapshot| ==> snapshot[j] != c;
    }

    /** UPDATE of all pending calls. */
    method SkipPending()
      modifies this`calls
      ensures calls == SkippedCalls(old(calls))
      ensures forall c :: c in calls ==> calls[c] == if old(calls)[c] == Pending then Skipped else old(calls)[c]
    {
      calls := map c | c in calls :: if calls[c] == Pending then Skipped else calls[c];
    }

    /** After the break: the campaign keeps its status, the undialled calls depend on the reason. */
    method Halt(reason: CampaignStatus)
      requires Prompt(log)
      modifies this`status, this`calls, this`clock, this`log
      ensures calls.Keys == old(calls).Keys && InCalling(calls) <= InCalling(old(calls))
      ensures |log| == |old(log)| + 1 && old(log) <= log && Prompt(log) && Attempts(log) == Attempts(old(log))
      ensures Looping(log) == Looping(old(log)) && clock <= old(clock) + 1
      ensures reason in {Stopped, Completed, Failed} ==> forall c :: c in calls ==> calls[c] != Pending
      ensures forall c :: Undialled(old(calls), linked, c) ==>
                calls[c] == if reason in {Stopped, Completed, Failed} then Skipped else Pending
    {
      Elapse();
      if reason == Stopped || reason == Completed || reason == Failed {
        SkipPending();
      }
    }

    /** A broken loop leaves its calls to the reason of the break, one that came to its end
        completes the campaign. */
    method End(halted: Option<CampaignStatus>) returns (exit: Exit)
      requires Prompt(log)
      modifies this`status, this`calls, this`clock, this`log
      ensures exit == if halted.Some? then Halted(halted.value) else Finished
      ensures calls.Keys == old(calls).Keys && |InCalling(calls)| <= |InCalling(old(calls))|
      ensures |log| == |old(log)| + 1 && old(log) <= log && Prompt(log) && Attempts(log) == Attempts(old(log))
      ensures Looping(log) == Looping(old(log)) && Bypasses(log) == Bypasses(old(log)) && clock <= old(clock) + 1
      ensures exit in {Halted(Stopped), Halted(Completed), Halted(Failed)} ==>
                forall c :: c in calls ==> calls[c] != Pending
      ensures exit.Halted? ==>
                forall c :: Undialled(old(calls), linked, c) ==>
                  calls[c] == if exit.reason in {Stopped, Completed, Failed} then Skipped else Pending
      ensures exit == Finished ==>
                status == Completed && log[|log| - 1] == Now(Completed) && calls == old(calls) && clock == old(clock)
    {
      ghost var before, most := log, InCalling(calls);
      if halted.Some? {
        Halt(halted.value);
        exit := Halted(halted.value);
      } else {
        Record(Completed);
        exit := Finished;
      }
      NoneBypassed(before, log);
      SubsetSize(InCalling(calls), most);
    }

    /** UPDATE of the campaign status. */
    method Record(s: CampaignStatus)
      modifies this`status, this`log
      ensures status == s && log == old(log) + [Now(s)] && Attempts(log) == Attempts(old(log))
      ensures Looping(log) == Looping(old(log))
      ensures Prompt(old(log)) ==> Prompt(log)
    {
      status := s;
      ghost var before := log;
      log := log + [Now(s)];
      Appended(before, Now(s));
    }

    /** The pending calls in order of creation, with time passing before and after the query. */
    method TakeSnapshot() returns (snapshot: seq<CallId>)
      requires |InCalling(calls)| <= peak
      modifies this`status, this`calls, this`clock, this`log
      ensures calls.Keys == old(calls).Keys && |InCalling(calls)| <= peak
      ensures clock == old(clock) + 2 && status == After(script, old(status), old(clock), clock)
      ensures old(log) < log && log[|log| - 1] == Now(status)
      ensures Attempts(log) == Attempts(old(log)) && Looping(log) == Looping(old(log))
      ensures Prompt(old(log)) ==> Prompt(log)
      ensures Increasing(snapshot) && forall c :: c in snapshot ==> c in calls
      ensures forall c :: Undialled(old(calls), linked, c) ==> c in snapshot && Undialled(calls, linked, c)
    {
      ghost var status0, clock0, first := status, clock, InCalling(calls);
      Elapse();
      ghost var status1, clock1 := status, clock;
      snapshot := PendingCalls(calls);
      PendingListed(calls);
      Elapse();
      AfterBoth(script, status0, clock0, clock1, clock);
      SubsetSize(InCalling(calls), first);
    }

    /** The head of `start_campaign_standalone`. A start from any other status raises, and the
        handler marks the campaign failed; without credit the whole snapshot fails undialled. */
    method Open(mobile: bool, credit: bool) returns (early: Option<Exit>, snapshot: seq<CallId>)
      requires Prompt(log) && |InCalling(calls)| <= peak
      modifies this`status, this`calls, this`clock, this`log
      ensures calls.Keys == old(calls).Keys
      ensures early == Some(Refused) <==> old(status) !in {Draft, Scheduled, Paused, Running}
      ensures early == Some(Refused) ==> status == Failed && clock == old(clock) + 1
      ensures early == Some(Refused) ==>
                forall c :: c in old(calls) && !Reachable(old(calls), linked, c) ==> calls[c] == old(calls)[c]
      ensures early == Some(Mobile) ==> calls == old(calls) && status == old(status) && log == old(log)
      ensures early == Some(Mobile) <==> early != Some(Refused) && mobile
      ensures early == Some(Blocked) <==> early != Some(Refused) && !mobile && !credit
      ensures early == Some(Blocked) ==>
                status == Failed && forall c :: c in snapshot ==> c in calls && calls[c] == CallFailed
      ensures early.Some? ==> early.value in {Refused, Mobile, Blocked}
      ensures clock <= old(clock) + 3
      ensures |InCalling(calls)| <= peak
      ensures old(log) <= log && Attempts(log) == Attempts(old(log)) && Prompt(log)
      ensures Looping(log) == Looping(old(log))
      ensures Increasing(snapshot) && forall c :: c in snapshot ==> c in calls
      ensures early == None ==>
                forall c :: Undialled(old(calls), linked, c) ==> c in snapshot && Undialled(calls, linked, c)
      ensures early == None ==> log != [] && log[|log| - 1] == Now(status)
      ensures early == None ==>
                clock == old(clock) + 3 && status == After(script, Running, old(clock) + 1, clock)
      ensures early == None ==> |log| > |old(log)| + 1 && log[|old(log)| + 1] == Now(Running)
    {
      snapshot := [];
      if status !in {Draft, Scheduled, Paused, Running} {
        ghost var before := InCalling(calls);
        Elapse();
        SubsetSize(InCalling(calls), before);
        Record(Failed);
        return Some(Refused), snapshot;
      }
      if mobile {
        return Some(Mobile), snapshot;
      }
      snapshot := Launch();
      if !credit {
        ghost var before := InCalling(calls);
        Record(Failed);
        calls := map c | c in calls :: if c in snapshot then CallFailed else calls[c];
        SubsetSize(InCalling(calls), before);
        return Some(Blocked), snapshot;
      }
      return None, snapshot;
    }

    /** The campaign is set running, whatever became of it since its status was read, and the
        snapshot is taken. */
    method Launch() returns (snapshot: seq<CallId>)
      requires Prompt(log) && |InCalling(calls)| <= peak
      modifies this`status, this`calls, this`clock, this`log
      ensures calls.Keys == old(calls).Keys && |InCalling(calls)| <= peak
      ensures old(log) < log && log[|log| - 1] == Now(status)
      ensures Attempts(log) == Attempts(old(log)) && Prompt(log) && Looping(log) == Looping(old(log))
      ensures Increasing(snapshot) && forall c :: c in snapshot ==> c in calls
      ensures forall c :: Undialled(old(calls), linked, c) ==> c in snapshot && Undialled(calls, linked, c)
      ensures clock == old(clock) + 3 && status == After(script, Running, old(clock) + 1, clock)
      ensures |log| > |old(log)| + 1 && log[|old(log)| + 1] == Now(Running)
    {
      ghost var first := InCalling(calls);
      Elapse();
      SubsetSize(InCalling(calls), first);
      Record(Running);
      snapshot := TakeSnapshot();
    }

    /** `start_campaign_standalone`: what became of the calls that had never been dialled, and
        what of the campaign. `asked` is the time when the status was last read or, without calls,
        set; `found` is the status that completion overwrites. */
    method Start(mobile: bool, credit: bool, maxConcurrent: int, how: map<CallId, Placement>)
      returns (exit: Exit, snapshot: seq<CallId>, ghost done: nat, ghost asked: nat, ghost found: CampaignStatus)
      requires Prompt(log) && Looping(log).sound && !Looping(log).licensed && |InCalling(calls)| <= peak
      modifies this
      ensures exit == Refused <==> old(status) !in {Draft, Scheduled, Paused, Running}
      ensures exit == Refused || exit == Blocked ==> status == Failed
      ensures calls.Keys == old(calls).Keys && |InCalling(calls)| <= peak
      ensures Prompt(log) && old(log) <= log && Looping(log).sound && !Looping(log).licensed
      ensures Increasing(snapshot) && done <= |snapshot| && Attempts(log) == Attempts(old(log)) + snapshot[..done]
      ensures forall c :: c in snapshot ==> c in calls
      ensures Dialled(exit) ==>
                forall c :: Undialled(old(calls), old(linked), c) ==> c in snapshot
      ensures Dialled(exit) <==> exit != Refused && !mobile && credit
      ensures exit == Finished ==> done == |snapshot| && status == Completed
      ensures exit.Halted? ==> done < |snapshot| && exit.reason != Running
      ensures Dialled(exit) && snapshot != [] ==> DecidedBy(log, exit, asked)
      ensures exit in {Halted(Stopped), Halted(Completed), Halted(Failed)} ==>
                forall c :: c in calls ==> calls[c] != Pending
      ensures exit.Halted? ==>
                forall i :: done <= i < |snapshot| && Undialled(old(calls), old(linked), snapshot[i]) ==>
                  calls[snapshot[i]] == if exit.reason in {Stopped, Completed, Failed} then Skipped else Pending
      ensures Dialled(exit) ==> |log| > |old(log)| + 1 && log[|old(log)| + 1] == Now(Running)
      ensures var limit := if maxConcurrent == 0 then 5 else maxConcurrent;
              && peak + Unslotted(old(log), limit) <= Max(old(peak), limit) + Unslotted(log, limit)
              && (limit > 0 && old(peak) <= limit && Undisturbed(|old(log)| + 1, log) ==> peak <= limit)
      ensures clock - old(clock) <= 126 * |snapshot| + 4
      ensures exit == Finished ==> Overwrites(log, found)
      ensures exit == Finished ==> clock > asked && found == After(script, Running, asked, clock)
      ensures exit == Finished && snapshot == [] ==> asked == old(clock) + 1
      ensures |snapshot| == 1 && Dialled(exit) ==>
                asked == old(clock) + 4
                && (exit == Finished <==> After(script, Running, old(clock) + 1, asked) == Running)
    {
      done, asked, found := 0, 0, Unknown;
      var early;
      ghost var log0, clock0 := log, clock;
      early, snapshot := Open(mobile, credit);
      NoneBypassed(log0, log);
      assert snapshot[..0] == [] && Attempts(log) + [] == Attempts(log);
      if early.Some? {
        return early.value, snapshot, done, asked, found;
      }
      exit, done, asked, found := RunCalls(snapshot, Limit(maxConcurrent), how, |log0| + 1);
      if snapshot == [] {
        asked := clock0 + 1;
      }
    }

    /** From the snapshot to the end. */
    method RunCalls(snapshot: seq<CallId>, limit: int, how: map<CallId, Placement>, ghost from: nat)
      returns (exit: Exit, ghost done: nat, ghost asked: nat, ghost found: CampaignStatus)
      requires Increasing(snapshot) && forall c :: c in snapshot ==> c in calls
      requires Prompt(log) && Looping(log).sound && |InCalling(calls)| <= peak
      requires log != [] && log[|log| - 1] == Now(status) && from <= |log| && !Looping(log).licensed
      modifies this
      ensures calls.Keys == old(calls).Keys && |InCalling(calls)| <= peak
      ensures Prompt(log) && old(log) <= log && Looping(log).sound
      ensures done <= |snapshot| && Attempts(log) == Attempts(old(log)) + snapshot[..done]
      ensures Dialled(exit)
      ensures exit == Finished ==> done == |snapshot| && status == Completed
      ensures exit.Halted? ==> done < |snapshot| && exit.reason != Running
      ensures snapshot != [] ==> DecidedBy(log, exit, asked)
      ensures exit in {Halted(Stopped), Halted(Completed), Halted(Failed)} ==>
                forall c :: c in calls ==> calls[c] != Pending
      ensures exit.Halted? ==>
                forall i :: done <= i < |snapshot| && Undialled(old(calls), old(linked), snapshot[i]) ==>
                  calls[snapshot[i]] == if exit.reason in {Stopped, Completed, Failed} then Skipped else Pending
      ensures snapshot == [] ==> Looping(log) == Looping(old(log))
      ensures clock - old(clock) <= LongestRounds(|snapshot|) + 1
      ensures peak + Unslotted(old(log), limit) <= Max(old(peak), limit) + Unslotted(log, limit)
      ensures limit > 0 && old(peak) <= limit && Undisturbed(from, log) ==> peak <= limit
      ensures exit == Finished ==> Overwrites(log, found)
      ensures exit == Finished && snapshot != [] ==> clock > asked && found == After(script, Running, asked, clock)
      ensures snapshot == [] ==> found == old(status) && clock == old(clock)
      ensures |snapshot| == 1 ==>
                asked == old(clock) + 1 && (exit == Finished <==> Next(old(status), script, old(clock)) == Running)
    {
      var halted;
      ghost var log0, peak0 := log, peak;
      halted, done, asked := Dial(snapshot, limit, how);
      found := status;
      assert forall i :: done <= i < |snapshot| && Undialled(old(calls), old(linked), snapshot[i]) ==>
               Undialled(calls, linked, snapshot[i]);
      exit := End(halted);
      WithinLimit(from, log0, log, limit, peak0, peak);
    }
  }

  function Spent(loop: Loop): Loop {
    loop.(licensed := false, sound := loop.sound && loop.licensed)
  }

  /** A campaign without a limit of its own has room for five calls. */
  function Limit(maxConcurrent: int): int {
    if maxConcurrent == 0 then 5 else maxConcurrent
  }

  /** The dial loop was entered. */
  predicate Dialled(exit: Exit) {
    exit.Halted? || exit == Finished
  }

  /** The last look decides: it saw the campaign running if the loop came to its end, and otherwise
      the reason of the break, after which the log grows by one event only. */
  predicate DecidedBy(log: seq<Event>, exit: Exit, asked: nat)
    requires Dialled(exit)
  {
    && Looping(log) == Loop(false, true, Some(Look(if exit.Halted? then exit.reason else Running, asked)))
    && (exit.Halted? ==> |log| > 1 && log[|log| - 2] == Look(exit.reason, asked))
  }

  /** The last status before completion was recorded. */
  predicate Overwrites(log: seq<Event>, found: CampaignStatus) {
    |log| > 1 && log[|log| - 1] == Now(Completed) && log[|log| - 2] == Now(found)
  }

  const STILL := Move(None, map[])

  /** Nothing moves but the campaign, which is stopped right after its fourth quiet moment. */
  const LATE_STOP := [STILL, STILL, STILL, STILL, Move(Some(Stopped), map[])]

  /** A stop that comes after the last status read is lost: a draft with one call is started, the
      only look sees it running, the call is placed, and the stop is overwritten by completion. */
  method StopIsLost() returns (campaign: Campaign, exit: Exit)
    ensures fresh(campaign) && campaign.script == LATE_STOP
    ensures exit == Finished && campaign.status == Completed && Attempts(campaign.log) == [0]
    ensures Looping(campaign.log) == Loop(false, true, Some(Look(Running, 4)))
    ensures Overwrites(campaign.log, Stopped)
  {
    campaign := new Campaign(Draft, map[0 := Pending], {}, LATE_STOP);
    assert Undialled(campaign.calls, campaign.linked, 0);
    var snapshot;
    ghost var done, asked, found;
    exit, snapshot, done, asked, found := campaign.Start(false, true, 1, map[]);
    OnlyCall(snapshot);
    Silent(LATE_STOP, Running, 1, 4);
    AfterBoth(LATE_STOP, Running, 4, 5, campaign.clock);
    Silent(LATE_STOP, Stopped, 5, campaign.clock);
    assert [] + snapshot[..1] == [0];
  }

  lemma {:induction false} Silent(script: seq<Move>, s: CampaignStatus, from: nat, until: nat)
    requires forall i :: from <= i < until && i < |script| ==> script[i].status == None
    ensures After(script, s, from, until) == s
    decreases until
  {
    if from < until {
      Silent(script, s, from, until - 1);
    }
  }

  lemma {:induction false} OnlyCall(snapshot: seq<CallId>)
    requires Increasing(snapshot) && 0 in snapshot && forall c :: c in snapshot ==> c == 0
    ensures snapshot == [0]
  {
    TwoCalls(snapshot);
    assert snapshot[0] in snapshot;
  }

  lemma {:induction false} TwoCalls(snapshot: seq<CallId>)
    requires Increasing(snapshot)
    ensures |snapshot| <= 1 || exists c, d :: c in snapshot && d in snapshot && c < d
  {
    if |snapshot| > 1 {
      assert snapshot[0] in snapshot && snapshot[1] in snapshot && snapshot[0] < snapshot[1];
    }
  }

  /** A pending call no voice session was ever linked to. */
  predicate Undialled(calls: map<CallId, CallStatus>, linked: set<CallId>, c: CallId) {
    c in calls && calls[c] == Pending && c !in linked
  }

  function SkippedCalls(calls: map<CallId, CallStatus>): map<CallId, CallStatus> {
    map c | c in calls :: if calls[c] == Pending then Skipped else calls[c]
  }

  datatype Exit = Refused | Mobile | Blocked | Halted(reason: CampaignStatus) | Finished
}
