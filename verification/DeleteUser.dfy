/**
 One account-deletion attempt (config/delete-user.js, from the fence to the end of the finally
 block). Every outside call may throw, before or after it took effect, and the process may die
 between any two calls.
 */
module DeleteUser {
  import opened Options

  /** The outside calls, in program order. */
  datatype Call =
    | Begin | AskRecovery | Recover | Prepare | Suspend | Drain | AbortJobs
    | DeleteData | DeleteSchedules | LeaveGroups | DeleteUser | DeleteDeliveries
    | Restore | CancelPurge | CancelFence | CloseCoordination
    | Over

  datatype Reply =
    | Threw
    | Ack
    | Acquired | InProgress | Missing
    | Answer(yes: bool)
    | Idle | Busy(late: bool)
    | Deleted(count: nat)

  /** The replies a call can get besides throwing. */
  predicate Plausible(call: Call, r: Reply) {
    call != Over
    && (r.Threw? ||
       match call
       case Begin => r.Acquired? || r.InProgress? || r.Missing?
       case Recover => r.Acquired? || r.InProgress? || r.Missing?
       case AskRecovery => r.Answer?
       case Drain => r.Idle? || r.Busy?
       case DeleteUser => r.Deleted?
       case _ => r.Ack?)
  }

  /** How the fence in hand was come by; a start whose call threw counts as one. */
  datatype Fence = NoFence | Started | Recovered

  datatype Event = Event(call: Call, reply: Reply)

  /**
   An attempt: whether generation state is shared (otherwise the operator has vouched that every
   process is stopped), the call it is at, its variables, and the calls it has made.
   */
  datatype Attempt = Attempt(
    shared: bool,
    at: Call,
    fence: Fence,
    suspended: bool,
    userDeleted: bool,
    allProcessesStopped: bool,
    log: seq<Event>)

  function Fresh(shared: bool): Attempt {
    Attempt(shared, Begin, NoFence, false, false, !shared, [])
  }

  /** Where the finally block starts, or goes on to once schedules are restored or the fence is gone. */
  function FirstCleanup(a: Attempt): Call {
    if a.suspended && !a.userDeleted then Restore else SecondCleanup(a)
  }

  function SecondCleanup(a: Attempt): Call {
    if a.fence != NoFence && !a.userDeleted then CancelPurge else LastCleanup(a)
  }

  function LastCleanup(a: Attempt): Call {
    if a.shared then CloseCoordination else Over
  }

  function AfterFence(a: Attempt): Call {
    if a.fence != NoFence then Prepare else AfterQuiesce(a)
  }

  function AfterQuiesce(a: Attempt): Call {
    if a.shared then AbortJobs else DeleteData
  }

  /** The variables after a call, and the longer log. */
  function Updated(a: Attempt, r: Reply): Attempt {
    a.(fence := if a.at.Begin? && (r.Acquired? || r.Threw?) then Started
                else if a.at.Recover? && r.Acquired? then Recovered else a.fence,
       suspended := a.suspended || a.at.Suspend?,
       userDeleted := a.userDeleted || (a.at.DeleteUser? && r == Deleted(1)),
       allProcessesStopped := a.allProcessesStopped || (a.at.AskRecovery? && r == Answer(true)),
       log := a.log + [Event(a.at, r)])
  }

  /** The call after this one, the variables being up to date. */
  function NextCall(b: Attempt, r: Reply): Call
    requires Plausible(b.at, r)
  {
    match b.at
    case Begin =>
      if r.Threw? then FirstCleanup(b)
      else if r.InProgress? then (if b.allProcessesStopped then Recover else AskRecovery)
      else AfterFence(b)
    case AskRecovery => if r == Answer(true) then Recover else FirstCleanup(b)
    case Recover => if r.Acquired? then AfterFence(b) else FirstCleanup(b)
    case Prepare => if r.Threw? then FirstCleanup(b) else Suspend
    case Suspend => if r.Threw? then FirstCleanup(b) else if b.shared then Drain else AfterQuiesce(b)
    case Drain => if r.Idle? then AfterQuiesce(b) else if r == Busy(false) then Drain else FirstCleanup(b)
    case AbortJobs => if r.Threw? then FirstCleanup(b) else DeleteData
    case DeleteData => if r.Threw? then FirstCleanup(b) else DeleteSchedules
    case DeleteSchedules => if r.Threw? then FirstCleanup(b) else LeaveGroups
    case LeaveGroups => if r.Threw? then FirstCleanup(b) else DeleteUser
    case DeleteUser => if r == Deleted(1) then DeleteDeliveries else FirstCleanup(b)
    case DeleteDeliveries => FirstCleanup(b)
    case Restore => SecondCleanup(b)
    case CancelPurge => CancelFence
    case CancelFence => LastCleanup(b)
    case CloseCoordination => Over
  }

  /** The control flow: what an attempt does next, given the reply to the call it is at. */
  function Advance(a: Attempt, r: Reply): Attempt
    requires Plausible(a.at, r)
  {
    var b := Updated(a, r);
    b.(at := NextCall(b, r))
  }

  /** A script answers every call it reaches; where it ends, the process died. */
  ghost predicate Answers(a: Attempt, script: seq<Reply>)
    decreases |script|
  {
    script != [] ==> Plausible(a.at, script[0]) && Answers(Advance(a, script[0]), script[1..])
  }

  function Play(a: Attempt, script: seq<Reply>): Attempt
    requires Answers(a, script)
    decreases |script|
  {
    if script == [] then a else Play(Advance(a, script[0]), script[1..])
  }

  // ---- the program

  /** How a stretch of the program ended. */
  datatype End = Returned | Thrown | Killed

  /** The calls that either work or throw, and the call after each. */
  predicate OneOutcome(call: Call) {
    call.Prepare? || call.AbortJobs? || call.DeleteData? || call.DeleteSchedules? || call.LeaveGroups?
  }

  function InOrder(call: Call): Call
    requires OneOutcome(call)
  {
    match call
    case Prepare => Suspend
    case AbortJobs => DeleteData
    case DeleteData => DeleteSchedules
    case DeleteSchedules => LeaveGroups
    case LeaveGroups => DeleteUser
  }

  predicate SameVariables(a: Attempt, b: Attempt) {
    && a.shared == b.shared && a.fence == b.fence && a.suspended == b.suspended && a.userDeleted == b.userDeleted
    && a.allProcessesStopped == b.allProcessesStopped
  }

  lemma OneOutcomeAdvances(a: Attempt, r: Reply)
    requires OneOutcome(a.at) && Plausible(a.at, r)
    ensures var b := Advance(a, r);
            SameVariables(b, a) && b.at == if r.Threw? then FirstCleanup(b) else InOrder(a.at)
  {
  }

  /** The calls of the finally block. */
  predicate IsCaught(call: Call) {
    call.Restore? || call.CancelPurge? || call.CancelFence? || call.CloseCoordination?
  }

  function AfterCaught(a: Attempt): Call
    requires IsCaught(a.at)
  {
    match a.at
    case Restore => SecondCleanup(a)
    case CancelPurge => CancelFence
    case CancelFence => LastCleanup(a)
    case CloseCoordination => Over
  }

  lemma CaughtAdvances(a: Attempt, r: Reply)
    requires IsCaught(a.at) && Plausible(a.at, r)
    ensures SameVariables(Advance(a, r), a) && Advance(a, r).at == AfterCaught(a)
  {
  }

  class Cli {
    const shared: bool
    var pending: seq<Reply>
    var log: seq<Event>
    var deletionFence: Fence
    var scheduleSuspensionToken: bool
    var userDeleted: bool
    var allProcessesStopped: bool
    /** The attempt as the control flow has it so far, and what the whole script makes of it. */
    ghost var mirror: Attempt
    ghost const goal: Attempt

    constructor (shared: bool, script: seq<Reply>)
      requires Answers(Fresh(shared), script)
      ensures this.shared == shared && pending == script && goal == Play(Fresh(shared), script)
      ensures Same() && VariablesMatch() && mirror == Fresh(shared)
    {
      this.shared, pending := shared, script;
      log, deletionFence, scheduleSuspensionToken := [], NoFence, false;
      userDeleted, allProcessesStopped := false, !shared;
      mirror, goal := Fresh(shared), Play(Fresh(shared), script);
    }

    ghost predicate Same()
      reads this
    {
      Answers(mirror, pending) && Play(mirror, pending) == goal && log == mirror.log && shared == mirror.shared
    }

    ghost predicate VariablesMatch()
      reads this
    {
      && deletionFence == mirror.fence && scheduleSuspensionToken == mirror.suspended
      && userDeleted == mirror.userDeleted && allProcessesStopped == mirror.allProcessesStopped
    }

    /** Makes a call; no reply when the process is killed first. */
    method Make(call: Call) returns (r: Option<Reply>)
      requires Same() && mirror.at == call && call != Over
      modifies `pending, `log, `mirror
      ensures Same()
      ensures r.Some? ==>
                Plausible(call, r.value) && mirror == Advance(old(mirror), r.value) && |pending| < |old(pending)|
      ensures r.None? ==> mirror == old(mirror) && pending == []
    {
      if pending == [] {
        return None;
      }
      r := Some(pending[0]);
      log := log + [Event(call, pending[0])];
      mirror := Advance(mirror, pending[0]);
      pending := pending[1..];
    }

    /** A call whose only outcomes are done, going on to the next in order, and thrown, going on to the cleanup. */
    method Do(call: Call) returns (e: End)
      requires Same() && mirror.at == call && OneOutcome(call)
      modifies `pending, `log, `mirror
      ensures Same() && SameVariables(mirror, old(mirror))
      ensures e.Returned? ==> mirror.at == InOrder(call)
      ensures e.Thrown? ==> mirror.at == FirstCleanup(mirror)
      ensures e.Killed? ==> pending == []
    {
      ghost var was := mirror;
      var r := Make(call);
      if r.None? {
        return Killed;
      }
      OneOutcomeAdvances(was, r.value);
      e := if r.value.Threw? then Thrown else Returned;
    }

    /** A cleanup call, whose failure is caught. */
    method Attend(call: Call) returns (alive: bool)
      requires Same() && mirror.at == call && IsCaught(call)
      modifies `pending, `log, `mirror
      ensures Same() && SameVariables(mirror, old(mirror))
      ensures alive ==> mirror.at == AfterCaught(old(mirror))
      ensures !alive ==> pending == []
    {
      ghost var was := mirror;
      var r := Make(call);
      alive := r.Some?;
      if alive {
        CaughtAdvances(was, r.value);
      }
    }

    method AcquireFence() returns (e: End)
      requires Same() && VariablesMatch() && mirror == Fresh(shared)
      modifies this
      ensures Same() && (e.Killed? ==> pending == [])
      ensures !e.Killed? ==> VariablesMatch() && !mirror.suspended && !mirror.userDeleted
      ensures e.Thrown? ==> mirror.at == FirstCleanup(mirror)
      ensures e.Returned? ==> mirror.at == AfterFence(mirror)
    {
      deletionFence := Started;
      var fenceState := Make(Begin);
      if fenceState.None? {
        return Killed;
      }
      if fenceState.value.Threw? {
        return Thrown;
      }
      if fenceState.value.InProgress? {
        deletionFence := NoFence;
        e := RecoverFence();
        return;
      }
      if fenceState.value.Missing? {
        deletionFence := NoFence;
      }
      e := Returned;
    }

    method RecoverFence() returns (e: End)
      requires Same() && VariablesMatch() && mirror.at == (if allProcessesStopped then Recover else AskRecovery)
      requires !mirror.suspended && !mirror.userDeleted
      modifies this
      ensures Same() && (e.Killed? ==> pending == [])
      ensures !e.Killed? ==> VariablesMatch() && !mirror.suspended && !mirror.userDeleted
      ensures e.Thrown? ==> mirror.at == FirstCleanup(mirror)
      ensures e.Returned? ==> mirror.at == AfterFence(mirror)
    {
      if !allProcessesStopped {
        var confirmRecovery := Make(AskRecovery);
        if confirmRecovery.None? {
          return Killed;
        }
        if confirmRecovery.value != Answer(true) {
          return Thrown;
        }
        allProcessesStopped := true;
      }
      var fenceState := Make(Recover);
      if fenceState.None? {
        return Killed;
      }
      if !fenceState.value.Acquired? {
        return Thrown;
      }
      deletionFence := Recovered;
      e := Returned;
    }

    /** Polls until no delivery is active, or gives up at the deadline. */
    method AwaitDrain() returns (e: End)
      requires Same() && VariablesMatch() && mirror.at == Drain && !mirror.userDeleted
      modifies `pending, `log, `mirror
      ensures Same() && (e.Killed? ==> pending == [])
      ensures VariablesMatch() && !mirror.userDeleted
      ensures e.Thrown? ==> mirror.at == FirstCleanup(mirror)
      ensures e.Returned? ==> mirror.at == AfterQuiesce(mirror)
    {
      while true
        invariant Same() && VariablesMatch() && mirror.at == Drain && !mirror.userDeleted
        decreases |pending|
      {
        var r := Make(Drain);
        if r.None? {
          return Killed;
        }
        if r.value.Idle? {
          return Returned;
        }
        if r.value != Busy(false) {
          return Thrown;
        }
      }
    }

    method Quiesce() returns (e: End)
      requires Same() && VariablesMatch() && mirror.at == AfterFence(mirror) && !mirror.suspended && !mirror.userDeleted
      modifies this
      ensures Same() && (e.Killed? ==> pending == [])
      ensures !e.Killed? ==> VariablesMatch() && !mirror.userDeleted
      ensures e.Thrown? ==> mirror.at == FirstCleanup(mirror)
      ensures e.Returned? ==> mirror.at == AfterQuiesce(mirror)
    {
      if deletionFence != NoFence {
        e := Do(Prepare);
        if !e.Returned? {
          return;
        }
        scheduleSuspensionToken := true;
        var r := Make(Suspend);
        if r.None? {
          return Killed;
        }
        if r.value.Threw? {
          return Thrown;
        }
        if shared {
          e := AwaitDrain();
          return;
        }
      }
      e := Returned;
    }

    method EraseData() returns (e: End)
      requires Same() && VariablesMatch() && mirror.at == AfterQuiesce(mirror) && !mirror.userDeleted
      modifies `pending, `log, `mirror
      ensures Same() && VariablesMatch() && !mirror.userDeleted
      ensures e.Killed? ==> pending == []
      ensures e.Thrown? ==> mirror.at == FirstCleanup(mirror)
      ensures e.Returned? ==> mirror.at == DeleteUser
    {
      if shared {
        e := Do(AbortJobs);
        if !e.Returned? {
          return;
        }
      }
      e := Do(DeleteData);
      if !e.Returned? {
        return;
      }
      e := Do(DeleteSchedules);
      if !e.Returned? {
        return;
      }
      e := Do(LeaveGroups);
    }

    method Commit() returns (e: End)
      requires Same() && VariablesMatch() && mirror.at == DeleteUser && !mirror.userDeleted
      modifies this
      ensures Same() && (e.Killed? ==> pending == [])
      ensures !e.Killed? ==> VariablesMatch() && mirror.at == FirstCleanup(mirror)
      ensures e.Returned? ==> mirror.userDeleted
    {
      var r := Make(DeleteUser);
      if r.None? {
        return Killed;
      }
      if r.value != Deleted(1) {
        return Thrown;
      }
      userDeleted := true;
      r := Make(DeleteDeliveries);
      e := if r.None? then Killed else if r.value.Threw? then Thrown else Returned;
    }

    /** The finally block; every failure in it is caught. */
    method CleanUp() returns (e: End)
      requires Same() && VariablesMatch() && mirror.at == FirstCleanup(mirror)
      modifies this
      ensures Same() && (e.Killed? ==> pending == [])
      ensures !e.Killed? ==> mirror.at == Over && SameVariables(mirror, old(mirror))
    {
      var alive := true;
      if scheduleSuspensionToken && !userDeleted {
        alive := Attend(Restore);
        if !alive {
          return Killed;
        }
      }
      if deletionFence != NoFence && !userDeleted {
        alive := Attend(CancelPurge);
        if !alive {
          return Killed;
        }
        alive := Attend(CancelFence);
        if !alive {
          return Killed;
        }
      }
      if shared {
        alive := Attend(CloseCoordination);
        if !alive {
          return Killed;
        }
      }
      e := Returned;
    }

    /** The whole attempt: whatever the replies, the calls made are those of the control flow. */
    method Run() returns (e: End)
      requires Same() && VariablesMatch() && mirror == Fresh(shared)
      modifies this
      ensures log == goal.log
      ensures !e.Killed? ==> goal.at == Over
      ensures e.Returned? ==> goal.userDeleted
      ensures ObeysRules(log, shared) && (!e.Killed? ==> Settled(FactsOf(log)))
    {
      EveryAttemptObeysTheRules(shared, pending);
      e := AcquireFence();
      if e.Returned? {
        e := Quiesce();
      }
      if e.Returned? {
        e := EraseData();
      }
      if e.Returned? {
        e := Commit();
      }
      if e.Killed? {
        return;
      }
      var f := CleanUp();
      if f.Killed? {
        e := Killed;
      }
    }
  }

  // ---- the rules of the protocol, as rules about the calls made

  predicate Tried(log: seq<Event>, call: Call) {
    exists e :: e in log && e.call == call
  }

  /** What the calls made so far established. */
  datatype Facts = Facts(
    missing: bool, inProgress: bool, confirmed: bool, holds: bool, mayHold: bool,
    prepared: bool, suspendTried: bool, suspended: bool, drained: bool, aborted: bool,
    dataGone: bool, schedulesGone: bool, groupsLeft: bool, userGone: bool,
    restoreTried: bool, purgeCancelTried: bool, releaseTried: bool)

  /** `holds`: the fence was acquired, at the start or by recovery; `mayHold`: or the start failed without saying. */
  function FactsOf(log: seq<Event>): Facts {
    var holds := Event(Begin, Acquired) in log || Event(Recover, Acquired) in log;
    Facts(
      Event(Begin, Missing) in log, Event(Begin, InProgress) in log, Event(AskRecovery, Answer(true)) in log,
      holds, holds || Event(Begin, Threw) in log,
      Event(Prepare, Ack) in log, Tried(log, Suspend), Event(Suspend, Ack) in log, Event(Drain, Idle) in log,
      Event(AbortJobs, Ack) in log, Event(DeleteData, Ack) in log, Event(DeleteSchedules, Ack) in log,
      Event(LeaveGroups, Ack) in log, Event(DeleteUser, Deleted(1)) in log,
      Tried(log, Restore), Tried(log, CancelPurge), Tried(log, CancelFence))
  }

  /**
   Nothing of the user's can be in flight: the fence is held, schedules are suspended and (where
   processes are running) deliveries have drained to zero; or there is no such user.
   */
  predicate Quiesced(f: Facts, shared: bool) {
    f.missing || (f.holds && f.prepared && f.suspended && (shared ==> f.drained))
  }

  /** Schedules, if this attempt may have suspended any, were offered back. */
  predicate Restored(f: Facts) {
    f.suspendTried ==> f.restoreTried
  }

  /** When a call may be made, given the calls before it. */
  predicate Allowed(f: Facts, call: Call, shared: bool) {
    match call
    case Recover => f.inProgress && (shared ==> f.confirmed)
    case Prepare => f.holds
    case Suspend => f.holds && f.prepared
    case AbortJobs => shared && Quiesced(f, shared)
    case DeleteData => Quiesced(f, shared) && (shared ==> f.aborted)
    case DeleteSchedules => Quiesced(f, shared) && f.dataGone
    case LeaveGroups => Quiesced(f, shared) && f.schedulesGone
    case DeleteUser => Quiesced(f, shared) && f.groupsLeft
    case DeleteDeliveries => f.userGone
    case Restore => f.suspendTried && !f.userGone
    case CancelPurge => f.mayHold && !f.userGone && Restored(f)
    case CancelFence => f.mayHold && !f.userGone && Restored(f) && f.purgeCancelTried
    case _ => true
  }

  ghost predicate ObeysRules(log: seq<Event>, shared: bool) {
    forall k :: 0 <= k < |log| ==> Allowed(FactsOf(log[..k]), log[k].call, shared)
  }

  /**
   How an attempt that ran to its end leaves things, as far as it knows. A recovery whose call threw
   is no fence it knows of, whether or not it landed.
   */
  predicate Settled(f: Facts) {
    f.userGone || (Restored(f) && (f.mayHold ==> f.purgeCancelTried && f.releaseTried))
  }

  // ---- every attempt obeys them

  /** What one more call adds. */
  function Learn(f: Facts, e: Event): Facts {
    var holds := f.holds || e == Event(Begin, Acquired) || e == Event(Recover, Acquired);
    Facts(
      f.missing || e == Event(Begin, Missing), f.inProgress || e == Event(Begin, InProgress),
      f.confirmed || e == Event(AskRecovery, Answer(true)),
      holds, holds || f.mayHold || e == Event(Begin, Threw),
      f.prepared || e == Event(Prepare, Ack), f.suspendTried || e.call == Suspend,
      f.suspended || e == Event(Suspend, Ack), f.drained || e == Event(Drain, Idle),
      f.aborted || e == Event(AbortJobs, Ack), f.dataGone || e == Event(DeleteData, Ack),
      f.schedulesGone || e == Event(DeleteSchedules, Ack), f.groupsLeft || e == Event(LeaveGroups, Ack),
      f.userGone || e == Event(DeleteUser, Deleted(1)),
      f.restoreTried || e.call == Restore, f.purgeCancelTried || e.call == CancelPurge,
      f.releaseTried || e.call == CancelFence)
  }

  lemma TriedGrows(log: seq<Event>, e: Event, call: Call)
    ensures Tried(log + [e], call) <==> Tried(log, call) || e.call == call
  {
    assert e in log + [e];
    if Tried(log, call) {
      var x :| x in log && x.call == call;
      assert x in log + [e];
    }
  }

  lemma SeenGrows(log: seq<Event>, e: Event, call: Call, reply: Reply)
    ensures Event(call, reply) in log + [e] <==> Event(call, reply) in log || e == Event(call, reply)
  {
  }

  lemma FactsGrow(log: seq<Event>, e: Event)
    ensures FactsOf(log + [e]) == Learn(FactsOf(log), e)
  {
    forall call, reply {
      SeenGrows(log, e, call, reply);
    }
    forall call {
      TriedGrows(log, e, call);
    }
  }

  predicate InCleanup(call: Call) {
    call.Restore? || call.CancelPurge? || call.CancelFence? || call.CloseCoordination? || call.Over?
  }

  /** The variables record the facts. */
  predicate Recorded(a: Attempt, f: Facts) {
    && (a.fence != NoFence <==> f.mayHold) && (f.holds ==> f.mayHold)
    && (a.suspended <==> f.suspendTried) && (a.userDeleted <==> f.userGone)
    && (a.allProcessesStopped <==> !a.shared || f.confirmed)
  }

  /** Where an attempt is says what it has established. */
  predicate Placed(at: Call, shared: bool, f: Facts) {
    && Allowed(f, at, shared)
    && (f.restoreTried || f.purgeCancelTried || f.releaseTried ==> InCleanup(at))
    && (f.userGone ==> InCleanup(at) || at.DeleteDeliveries?)
    && (at.Begin? || at.AskRecovery? || at.Recover? ==> !f.mayHold && !f.suspendTried)
    && (at.AskRecovery? ==> shared && f.inProgress)
    && (at.Prepare? ==> !f.suspendTried)
    && (at.Drain? ==> shared && f.holds && f.prepared && f.suspended)
    && (at.CloseCoordination? || at.Over? ==> Settled(f))
  }

  predicate Consistent(a: Attempt, f: Facts) {
    Recorded(a, f) && Placed(a.at, a.shared, f)
  }

  lemma CleanupIsPlaced(a: Attempt, f: Facts)
    requires Recorded(a, f)
    ensures Placed(FirstCleanup(a), a.shared, f)
    ensures Restored(f) ==> Placed(SecondCleanup(a), a.shared, f)
    ensures Settled(f) ==> Placed(LastCleanup(a), a.shared, f)
  {
  }

  lemma UpdatedIsRecorded(a: Attempt, r: Reply, f: Facts)
    requires Plausible(a.at, r) && Consistent(a, f)
    ensures Recorded(Updated(a, r), Learn(f, Event(a.at, r)))
  {
  }

  lemma StartIsPlaced(a: Attempt, r: Reply, f: Facts)
    requires Plausible(a.at, r) && Consistent(a, f) && (a.at.Begin? || a.at.AskRecovery? || a.at.Recover?)
    ensures Placed(NextCall(Updated(a, r), r), a.shared, Learn(f, Event(a.at, r)))
  {
    UpdatedIsRecorded(a, r, f);
    CleanupIsPlaced(Updated(a, r), Learn(f, Event(a.at, r)));
  }

  lemma QuiesceIsPlaced(a: Attempt, r: Reply, f: Facts)
    requires Plausible(a.at, r) && Consistent(a, f) && (a.at.Prepare? || a.at.Suspend? || a.at.Drain?)
    ensures Placed(NextCall(Updated(a, r), r), a.shared, Learn(f, Event(a.at, r)))
  {
    UpdatedIsRecorded(a, r, f);
    CleanupIsPlaced(Updated(a, r), Learn(f, Event(a.at, r)));
  }

  lemma ErasureIsPlaced(a: Attempt, r: Reply, f: Facts)
    requires Plausible(a.at, r) && Consistent(a, f)
    requires a.at.AbortJobs? || a.at.DeleteData? || a.at.DeleteSchedules? || a.at.LeaveGroups? || a.at.DeleteUser? ||
               a.at.DeleteDeliveries?
    ensures Placed(NextCall(Updated(a, r), r), a.shared, Learn(f, Event(a.at, r)))
  {
    UpdatedIsRecorded(a, r, f);
    CleanupIsPlaced(Updated(a, r), Learn(f, Event(a.at, r)));
  }

  lemma LaterCleanupIsPlaced(a: Attempt, r: Reply, f: Facts)
    requires Plausible(a.at, r) && Consistent(a, f) && InCleanup(a.at)
    ensures Placed(NextCall(Updated(a, r), r), a.shared, Learn(f, Event(a.at, r)))
  {
    UpdatedIsRecorded(a, r, f);
    CleanupIsPlaced(Updated(a, r), Learn(f, Event(a.at, r)));
  }

  lemma NextIsPlaced(a: Attempt, r: Reply, f: Facts)
    requires Plausible(a.at, r) && Consistent(a, f)
    ensures Placed(NextCall(Updated(a, r), r), a.shared, Learn(f, Event(a.at, r)))
  {
    match a.at {
      case Begin | AskRecovery | Recover => StartIsPlaced(a, r, f);
      case Prepare | Suspend | Drain => QuiesceIsPlaced(a, r, f);
      case Restore | CancelPurge | CancelFence | CloseCoordination => LaterCleanupIsPlaced(a, r, f);
      case _ => ErasureIsPlaced(a, r, f);
    }
  }

  lemma PlacedAt(b: Attempt, next: Call, f: Facts)
    requires Recorded(b, f) && Placed(next, b.shared, f)
    ensures Consistent(b.(at := next), f)
  {
  }

  /** One reply keeps an attempt consistent with what it has established. */
  lemma AdvanceKeepsConsistent(a: Attempt, r: Reply, f: Facts)
    requires Plausible(a.at, r) && Consistent(a, f)
    ensures Consistent(Advance(a, r), Learn(f, Event(a.at, r)))
  {
    UpdatedIsRecorded(a, r, f);
    NextIsPlaced(a, r, f);
    PlacedAt(Updated(a, r), NextCall(Updated(a, r), r), Learn(f, Event(a.at, r)));
  }

  lemma LogAppends(log: seq<Event>, e: Event, shared: bool)
    requires ObeysRules(log, shared) && Allowed(FactsOf(log), e.call, shared)
    ensures ObeysRules(log + [e], shared)
  {
    forall k | 0 <= k < |log + [e]|
      ensures Allowed(FactsOf((log + [e])[..k]), (log + [e])[k].call, shared)
    {
      if k < |log| {
        assert (log + [e])[..k] == log[..k];
      } else {
        assert (log + [e])[..k] == log;
      }
    }
  }

  lemma {:induction false} PlayObeys(a: Attempt, script: seq<Reply>)
    requires Answers(a, script) && Consistent(a, FactsOf(a.log)) && ObeysRules(a.log, a.shared)
    ensures var end := Play(a, script);
            end.shared == a.shared && Consistent(end, FactsOf(end.log)) && ObeysRules(end.log, a.shared)
    decreases |script|
  {
    if script != [] {
      var e := Event(a.at, script[0]);
      AdvanceKeepsConsistent(a, script[0], FactsOf(a.log));
      FactsGrow(a.log, e);
      LogAppends(a.log, e, a.shared);
      PlayObeys(Advance(a, script[0]), script[1..]);
    }
  }

  /**
   Every attempt obeys the rules, whichever calls throw and wherever it is cut short: data is
   deleted only once quiesced, schedules are restored before the fence is released, and neither is
   done after the user is gone. One that ran to its end leaves things settled.
   */
  lemma EveryAttemptObeysTheRules(shared: bool, script: seq<Reply>)
    requires Answers(Fresh(shared), script)
    ensures var end := Play(Fresh(shared), script);
            ObeysRules(end.log, shared) && (end.at == Over ==> Settled(FactsOf(end.log)))
  {
    PlayObeys(Fresh(shared), script);
  }

  /** In every attempt, whoever deletes data was first let in, and quiesced. */
  lemma NoDataGoesUnquiesced(shared: bool, script: seq<Reply>, k: nat)
    requires Answers(Fresh(shared), script) && k < |Play(Fresh(shared), script).log|
    requires var call := Play(Fresh(shared), script).log[k].call;
             call.DeleteData? || call.DeleteSchedules? || call.LeaveGroups? || call.DeleteUser?
    ensures var before := Play(Fresh(shared), script).log[..k];
            || Event(Begin, Missing) in before
            || (&& (Event(Begin, Acquired) in before || Event(Recover, Acquired) in before)
                && Event(Suspend, Ack) in before && (shared ==> Event(Drain, Idle) in before))
  {
    EveryAttemptObeysTheRules(shared, script);
    var log := Play(Fresh(shared), script).log;
    QuiescedBefore(log, shared, k);
  }

  lemma QuiescedBefore(log: seq<Event>, shared: bool, k: nat)
    requires ObeysRules(log, shared) && k < |log|
    requires log[k].call.DeleteData? || log[k].call.DeleteSchedules? || log[k].call.LeaveGroups? ||
               log[k].call.DeleteUser?
    ensures Quiesced(FactsOf(log[..k]), shared)
  {
    assert Allowed(FactsOf(log[..k]), log[k].call, shared);
  }

  /**
   In every attempt, releasing comes after offering schedules back, only for a fence the attempt set or
   may have set, and never after the user is gone.
   */
  lemma RestoreComesBeforeRelease(shared: bool, script: seq<Reply>, k: nat)
    requires Answers(Fresh(shared), script) && k < |Play(Fresh(shared), script).log|
    requires Play(Fresh(shared), script).log[k].call.CancelFence?
    ensures var before := Play(Fresh(shared), script).log[..k];
            && (Tried(before, Suspend) ==> Tried(before, Restore))
            && (Event(Begin, Acquired) in before || Event(Recover, Acquired) in before || Event(Begin, Threw) in before)
            && Event(DeleteUser, Deleted(1)) !in before
  {
    EveryAttemptObeysTheRules(shared, script);
    var log := Play(Fresh(shared), script).log;
    ReleaseAllowed(log, shared, k);
  }

  lemma ReleaseAllowed(log: seq<Event>, shared: bool, k: nat)
    requires ObeysRules(log, shared) && k < |log| && log[k].call.CancelFence?
    ensures var f := FactsOf(log[..k]); f.mayHold && !f.userGone && Restored(f)
  {
    assert Allowed(FactsOf(log[..k]), log[k].call, shared);
  }
}
