/**
 The account-deletion fence on one user document, with any number of deletion attempts interleaved
 (packages/data-schemas/src/methods/user.ts, config/delete-user.js). A fence is only the
 millisecond at which its owner stamped it, so whose it is is a question about instants.
 */
module DeletionFence {
  import opened Options
  import opened DeleteUser

  const STALE := 15 * 60_000

  // ---- the fence operations of the user document

  datatype Doc = Doc(user: bool, fence: Option<int>)

  datatype Outcome = Outcome(doc: Doc, reply: Reply)

  /** Sets the fence of a user that has none. */
  function BeginDeletion(d: Doc, startedAt: int): Outcome {
    if d.user && d.fence.None? then Outcome(d.(fence := Some(startedAt)), Acquired)
    else Outcome(d, if d.user then InProgress else Missing)
  }

  /** Replaces a fence at least fifteen minutes old. */
  function RecoverStale(d: Doc, recoveredAt: int): Outcome {
    if d.user && d.fence.Some? && d.fence.value <= recoveredAt - STALE then
      Outcome(d.(fence := Some(recoveredAt)), Acquired)
    else
      Outcome(d, if d.user then InProgress else Missing)
  }

  /** Clears the fence if it is exactly this one. */
  function CancelDeletion(d: Doc, stamp: int): Doc {
    if d.fence == Some(stamp) then d.(fence := None) else d
  }

  // ---- attempts interleaved

  /** When an attempt stamped its start, and would stamp its recovery of a stale fence. */
  datatype Stamps = Stamps(startedAt: int, recoveredAt: int)

  /** The attempts there are; a fence left from before them is stamped `epoch` or earlier. */
  datatype Fleet = Fleet(epoch: int, stamps: map<nat, Stamps>)

  ghost predicate StampsInOrder(f: Fleet) {
    forall a :: a in f.stamps ==> f.epoch < f.stamps[a].startedAt <= f.stamps[a].recoveredAt
  }

  /** The clock, the document, which attempt (if one of the fleet) set its fence, and the attempts. */
  datatype System = System(now: int, doc: Doc, holder: Option<nat>, runs: map<nat, Attempt>)

  ghost predicate Initial(f: Fleet, s: System) {
    && s.now <= f.epoch && s.holder == None && (s.doc.fence.Some? ==> s.doc.fence.value <= f.epoch)
    && s.runs.Keys == f.stamps.Keys
    && forall a :: a in s.runs ==> s.runs[a] == Fresh(s.runs[a].shared)
  }

  /** An attempt's next call: its reply, and whether it took effect on the document (a throw does not say). */
  datatype Step = Step(who: nat, reply: Reply, landed: bool, time: int)

  /** The stamp an attempt presents as its fence. */
  function Token(a: Attempt, stamps: Stamps): int {
    if a.fence.Recovered? then stamps.recoveredAt else stamps.startedAt
  }

  /** What a call that took effect does to the document, and its reply where that depends on it. */
  function Serve(d: Doc, a: Attempt, stamps: Stamps, reply: Reply): Outcome {
    match a.at
    case Begin => BeginDeletion(d, stamps.startedAt)
    case Recover => RecoverStale(d, stamps.recoveredAt)
    case CancelFence => Outcome(CancelDeletion(d, Token(a, stamps)), Ack)
    case DeleteUser => Outcome(Doc(false, None), Deleted(if d.user then 1 else 0))
    case Prepare => Outcome(d, if d.fence == Some(Token(a, stamps)) then Ack else Threw)
    case _ => Outcome(d, reply)
  }

  /** A start takes effect less than fifteen minutes after it was stamped, and no stamp is from the future. */
  predicate Timely(a: Attempt, stamps: Stamps, time: int) {
    && (a.at.Begin? ==> stamps.startedAt <= time < stamps.startedAt + STALE)
    && (a.at.Recover? ==> stamps.recoveredAt <= time)
  }

  ghost predicate Enabled(f: Fleet, s: System, e: Step) {
    && e.who in s.runs && e.who in f.stamps && s.now <= e.time
    && var a, stamps := s.runs[e.who], f.stamps[e.who];
       && Plausible(a.at, e.reply) && Timely(a, stamps, e.time)
       && (!e.reply.Threw? ==> e.landed && e.reply == Serve(s.doc, a, stamps, e.reply).reply)
  }

  ghost function After(f: Fleet, s: System, e: Step): System
    requires Enabled(f, s, e)
  {
    var a := s.runs[e.who];
    var doc := if e.landed then Serve(s.doc, a, f.stamps[e.who], e.reply).doc else s.doc;
    var holder := if doc.fence == s.doc.fence then s.holder else if doc.fence.Some? then Some(e.who) else None;
    System(e.time, doc, holder, s.runs[e.who := Advance(a, e.reply)])
  }

  ghost predicate IsRun(f: Fleet, s: System, events: seq<Step>)
    decreases |events|
  {
    events != [] ==> Enabled(f, s, events[0]) && IsRun(f, After(f, s, events[0]), events[1..])
  }

  /** The step clears a fence that another attempt set. */
  ghost predicate ReleasesAnothers(f: Fleet, s: System, e: Step)
    requires Enabled(f, s, e)
  {
    s.runs[e.who].at.CancelFence? && e.landed && After(f, s, e).doc.fence != s.doc.fence && s.holder != Some(e.who)
  }

  ghost predicate NeverReleasesAnothers(f: Fleet, s: System, events: seq<Step>)
    requires IsRun(f, s, events)
    decreases |events|
  {
    events != [] ==> !ReleasesAnothers(f, s, events[0]) && NeverReleasesAnothers(f, After(f, s, events[0]), events[1..])
  }

  /** No attempt started in the millisecond in which another started or would recover. */
  ghost predicate StartsApart(f: Fleet) {
    forall a, b :: a in f.stamps && b in f.stamps && a != b ==>
      f.stamps[a].startedAt != f.stamps[b].startedAt && f.stamps[a].startedAt != f.stamps[b].recoveredAt
  }

  ghost predicate Safe(f: Fleet) {
    forall s, events :: Initial(f, s) && IsRun(f, s, events) ==> NeverReleasesAnothers(f, s, events)
  }

  // ---- when starts are apart, a fence is released only by its holder

  ghost predicate HolderStampedIt(f: Fleet, s: System) {
    s.doc.fence.Some? ==>
      var fence := s.doc.fence.value;
      match s.holder
      case None => fence <= f.epoch
      case Some(h) => h in f.stamps && (fence == f.stamps[h].startedAt || fence == f.stamps[h].recoveredAt)
  }

  /** A recovery that succeeded outdates every fence stamped fifteen minutes before it. */
  ghost predicate RecoveryStands(f: Fleet, s: System, a: nat)
    requires a in f.stamps
  {
    && f.stamps[a].recoveredAt <= s.now
    && (s.doc.fence.Some? ==> s.doc.fence.value > f.stamps[a].recoveredAt - STALE)
    && (s.doc.fence == Some(f.stamps[a].recoveredAt) ==> s.holder == Some(a))
  }

  ghost predicate Invariant(f: Fleet, s: System) {
    && s.runs.Keys == f.stamps.Keys && HolderStampedIt(f, s)
    && forall a :: a in s.runs && s.runs[a].fence.Recovered? ==> RecoveryStands(f, s, a)
  }

  /** How a step can move the fence. */
  datatype Move = Stayed | Cleared | Stamped | Taken

  ghost predicate Moved(f: Fleet, s: System, t: System, who: nat, move: Move)
    requires who in f.stamps
  {
    var stamps := f.stamps[who];
    match move
    case Stayed => t.doc.fence == s.doc.fence && t.holder == s.holder
    case Cleared => s.doc.fence.Some? && t.doc.fence.None? && t.holder.None?
    case Stamped => && s.doc.fence.None? && t.doc.fence == Some(stamps.startedAt) && t.holder == Some(who)
                    && t.now < stamps.startedAt + STALE
    case Taken => && s.doc.fence.Some? && s.doc.fence.value <= stamps.recoveredAt - STALE
                  && t.doc.fence == Some(stamps.recoveredAt) && t.holder == Some(who) && stamps.recoveredAt <= t.now
  }

  lemma EveryStepIsAMove(f: Fleet, s: System, e: Step) returns (move: Move)
    requires Enabled(f, s, e)
    ensures var t := After(f, s, e);
            && Moved(f, s, t, e.who, move) && s.now <= t.now
            && (s.runs[e.who].at.Recover? && e.reply.Acquired? ==> move.Taken?)
  {
    var t, stamps := After(f, s, e), f.stamps[e.who];
    move := if t.doc.fence == s.doc.fence then Stayed
            else if t.doc.fence.None? then Cleared
            else if s.doc.fence.None? then Stamped else Taken;
  }

  lemma RunsAfter(f: Fleet, s: System, e: Step, a: nat)
    requires Enabled(f, s, e) && a in s.runs
    ensures After(f, s, e).runs.Keys == s.runs.Keys
    ensures After(f, s, e).runs[a].fence.Recovered? ==>
              s.runs[a].fence.Recovered? || (a == e.who && s.runs[a].at.Recover? && e.reply.Acquired?)
  {
  }

  lemma MoveKeepsRecovery(f: Fleet, s: System, t: System, who: nat, move: Move, a: nat)
    requires StampsInOrder(f) && StartsApart(f) && who in f.stamps && a in f.stamps
    requires Moved(f, s, t, who, move) && s.now <= t.now
    requires RecoveryStands(f, s, a) || (a == who && move.Taken?)
    requires HolderStampedIt(f, s)
    ensures RecoveryStands(f, t, a)
  {
  }

  lemma MoveKeepsHolder(f: Fleet, s: System, t: System, who: nat, move: Move)
    requires HolderStampedIt(f, s) && who in f.stamps && Moved(f, s, t, who, move)
    ensures HolderStampedIt(f, t)
  {
  }

  lemma ReleaseIsByTheHolder(f: Fleet, s: System, e: Step)
    requires StampsInOrder(f) && StartsApart(f) && Invariant(f, s) && Enabled(f, s, e)
    ensures !ReleasesAnothers(f, s, e)
  {
    assert s.runs[e.who].fence.Recovered? ==> RecoveryStands(f, s, e.who);
  }

  lemma StepKeepsInvariant(f: Fleet, s: System, e: Step)
    requires StampsInOrder(f) && StartsApart(f) && Invariant(f, s) && Enabled(f, s, e)
    ensures Invariant(f, After(f, s, e))
  {
    var t := After(f, s, e);
    var move := EveryStepIsAMove(f, s, e);
    MoveKeepsHolder(f, s, t, e.who, move);
    RunsAfter(f, s, e, e.who);
    forall a | a in t.runs && t.runs[a].fence.Recovered?
      ensures RecoveryStands(f, t, a)
    {
      RunsAfter(f, s, e, a);
      MoveKeepsRecovery(f, s, t, e.who, move, a);
    }
  }

  lemma {:induction false} ApartIsSafe(f: Fleet, s: System, events: seq<Step>)
    requires StampsInOrder(f) && StartsApart(f) && Invariant(f, s) && IsRun(f, s, events)
    ensures NeverReleasesAnothers(f, s, events)
    decreases |events|
  {
    if events != [] {
      StepKeepsInvariant(f, s, events[0]);
      ReleaseIsByTheHolder(f, s, events[0]);
      ApartIsSafe(f, After(f, s, events[0]), events[1..]);
    }
  }

  // ---- when two attempts share an instant, one can release the other's fence

  ghost predicate Breaks(f: Fleet, s: System, events: seq<Step>) {
    IsRun(f, s, events) && !NeverReleasesAnothers(f, s, events)
  }

  lemma BreaksLater(f: Fleet, s: System, e: Step, rest: seq<Step>)
    requires Enabled(f, s, e) && Breaks(f, After(f, s, e), rest)
    ensures Breaks(f, s, [e] + rest)
  {
    assert ([e] + rest)[1..] == rest;
  }

  function ThrownStart(b: nat, time: int): seq<Step> {
    [Step(b, Threw, false, time)] + ([Step(b, Ack, true, time)] + [Step(b, Ack, true, time)])
  }

  /** An attempt whose start threw takes the fence stamped at its own instant for its own. */
  lemma ThrownStartReleases(f: Fleet, s: System, b: nat)
    requires b in f.stamps && b in s.runs && s.runs[b] == Fresh(s.runs[b].shared)
    requires s.doc.fence == Some(f.stamps[b].startedAt) && s.now == f.stamps[b].startedAt && s.holder != Some(b)
    ensures Breaks(f, s, ThrownStart(b, s.now))
  {
    var thrown, ack := Step(b, Threw, false, s.now), Step(b, Ack, true, s.now);
    var s1 := After(f, s, thrown);
    assert s1.runs[b].at == CancelPurge;
    var s2 := After(f, s1, ack);
    assert s2.runs[b].at == CancelFence && ReleasesAnothers(f, s2, ack);
    assert IsRun(f, After(f, s2, ack), [ack][1..]);
    assert Breaks(f, s2, [ack]);
    BreaksLater(f, s1, ack, [ack]);
    BreaksLater(f, s, thrown, [ack] + [ack]);
  }

  /** Nobody has begun; every attempt runs beside live processes, so that recovering takes the operator's word. */
  ghost function Calm(f: Fleet, fence: Option<int>): System {
    System(f.epoch, Doc(true, fence), None, map a | a in f.stamps :: Fresh(true))
  }

  lemma SameStartBreaks(f: Fleet, a: nat, b: nat) returns (events: seq<Step>)
    requires StampsInOrder(f) && a in f.stamps && b in f.stamps && a != b
    requires f.stamps[a].startedAt == f.stamps[b].startedAt
    ensures Initial(f, Calm(f, None)) && Breaks(f, Calm(f, None), events)
  {
    var s, e := Calm(f, None), Step(a, Acquired, true, f.stamps[a].startedAt);
    var t := After(f, s, e);
    ThrownStartReleases(f, t, b);
    BreaksLater(f, s, e, ThrownStart(b, t.now));
    events := [e] + ThrownStart(b, t.now);
  }

  lemma StartAtRecoveryBreaks(f: Fleet, a: nat, b: nat) returns (s: System, events: seq<Step>)
    requires StampsInOrder(f) && a in f.stamps && b in f.stamps && a != b
    requires f.stamps[a].startedAt == f.stamps[b].recoveredAt
    ensures Initial(f, s) && Breaks(f, s, events)
  {
    var recovery := f.stamps[b].recoveredAt;
    s := Calm(f, Some(if f.epoch <= recovery - STALE then f.epoch else recovery - STALE));
    var start, ask := Step(b, InProgress, true, f.stamps[b].startedAt), Step(b, Answer(true), true, recovery);
    var recover := Step(b, Acquired, true, recovery);
    var t := After(f, s, start);
    assert t.runs[b].at == AskRecovery;
    var u := After(f, t, ask);
    assert u.runs[b].at == Recover;
    var v := After(f, u, recover);
    ThrownStartReleases(f, v, a);
    BreaksLater(f, u, recover, ThrownStart(a, v.now));
    BreaksLater(f, t, ask, [recover] + ThrownStart(a, v.now));
    BreaksLater(f, s, start, [ask] + ([recover] + ThrownStart(a, v.now)));
    events := [start] + ([ask] + ([recover] + ThrownStart(a, v.now)));
  }

  /**
   An attempt releases only fences it set itself, in every interleaving of every set of attempts,
   exactly when no attempt starts in the millisecond in which another starts or recovers.
   */
  lemma FenceIsReleasedOnlyByItsHolder(f: Fleet)
    requires StampsInOrder(f)
    ensures Safe(f) <==> StartsApart(f)
  {
    if StartsApart(f) {
      forall s, events | Initial(f, s) && IsRun(f, s, events)
        ensures NeverReleasesAnothers(f, s, events)
      {
        assert forall a :: a in s.runs ==> s.runs[a].fence.NoFence?;
        ApartIsSafe(f, s, events);
      }
    } else {
      var a: nat, b: nat :| a in f.stamps && b in f.stamps && a != b
        && (f.stamps[a].startedAt == f.stamps[b].startedAt || f.stamps[a].startedAt == f.stamps[b].recoveredAt);
      if f.stamps[a].startedAt == f.stamps[b].startedAt {
        var events := SameStartBreaks(f, a, b);
      } else {
        var s, events := StartAtRecoveryBreaks(f, a, b);
      }
    }
  }

  // ---- where an attempt can be

  predicate Beginning(r: Attempt) {
    r.at.Begin? || r.at.AskRecovery? || r.at.Recover?
  }

  /** What an attempt's place says of its variables. */
  predicate InPhase(r: Attempt) {
    && (Beginning(r) ==> !r.userDeleted && r.fence.NoFence? && !r.suspended)
    && (r.suspended || r.at.Prepare? || r.at.Suspend? ==> r.fence != NoFence)
    && (r.at.Restore? ==> r.suspended && !r.userDeleted)
    && (r.at.DeleteDeliveries? ==> r.userDeleted)
  }

  /** Past acquiring the fence and not past giving the schedules back. */
  predicate AtWork(r: Attempt) {
    && r.fence != NoFence
    && (r.at.Prepare? || r.at.Suspend? || r.at.Drain? || r.at.AbortJobs? || r.at.DeleteData? || r.at.DeleteSchedules?
        || r.at.LeaveGroups? || r.at.DeleteUser? || r.at.Restore?)
  }

  /** It has a fence and its release still ahead of it. */
  predicate Owing(r: Attempt) {
    && r.fence != NoFence && !r.userDeleted
    && (r.at.CancelPurge? || r.at.CancelFence? || AtWork(r))
  }

  /** It will not touch the fence again. */
  predicate LetGo(r: Attempt) {
    r.at.CloseCoordination? || r.at.Over?
  }

  lemma AdvanceKeepsPhase(r: Attempt, reply: Reply)
    requires Plausible(r.at, reply) && InPhase(r)
    ensures InPhase(Advance(r, reply))
  {
  }

  lemma AttemptPhases(r: Attempt, reply: Reply)
    requires Plausible(r.at, reply) && InPhase(r)
    ensures InPhase(Advance(r, reply))
    ensures Owing(r) && !r.at.CancelFence? && !(r.at.DeleteUser? && reply == Deleted(1)) ==>
              Owing(Advance(r, reply)) && Advance(r, reply).fence == r.fence
    ensures r.at.CancelFence? || LetGo(r) || (r.at.Recover? && reply.Threw?) ==> LetGo(Advance(r, reply))
    ensures (r.at.Begin? && (reply.Acquired? || reply.Threw?)) || (r.at.Recover? && reply.Acquired?) ==>
              Owing(Advance(r, reply))
  {
    AdvanceKeepsPhase(r, reply);
  }

  // ---- where a run ends

  ghost function Finish(f: Fleet, s: System, events: seq<Step>): System
    requires IsRun(f, s, events)
    decreases |events|
  {
    if events == [] then s else Finish(f, After(f, s, events[0]), events[1..])
  }

  lemma FinishLater(f: Fleet, s: System, e: Step, rest: seq<Step>)
    requires Enabled(f, s, e) && IsRun(f, After(f, s, e), rest)
    ensures IsRun(f, s, [e] + rest) && Finish(f, s, [e] + rest) == Finish(f, After(f, s, e), rest)
  {
    assert ([e] + rest)[1..] == rest;
  }

  lemma {:induction false} RunsCompose(f: Fleet, s: System, a: seq<Step>, b: seq<Step>)
    requires IsRun(f, s, a) && IsRun(f, Finish(f, s, a), b)
    ensures IsRun(f, s, a + b) && Finish(f, s, a + b) == Finish(f, Finish(f, s, a), b)
    decreases |a|
  {
    if a == [] {
      assert a + b == b;
    } else {
      assert (a + b)[1..] == a[1..] + b;
      RunsCompose(f, After(f, s, a[0]), a[1..], b);
    }
  }

  ghost predicate Reaches(f: Fleet, s: System, t: System) {
    exists events :: IsRun(f, s, events) && Finish(f, s, events) == t
  }

  lemma ReachesItself(f: Fleet, s: System)
    ensures Reaches(f, s, s)
  {
    assert IsRun(f, s, []) && Finish(f, s, []) == s;
  }

  lemma ReachesOn(f: Fleet, s: System, t: System, e: Step)
    requires Reaches(f, s, t) && Enabled(f, t, e)
    ensures Reaches(f, s, After(f, t, e))
  {
    var events :| IsRun(f, s, events) && Finish(f, s, events) == t;
    var u := After(f, t, e);
    assert [e][1..] == [] && IsRun(f, u, []) && Finish(f, u, []) == u;
    assert IsRun(f, t, [e]) && Finish(f, t, [e]) == u;
    RunsCompose(f, s, events, [e]);
  }

  // ---- when a finished attempt leaves its own fence behind

  /**
   After the step its fence is set and it will not release it: its release did not land, or its recovery threw
   though it did.
   */
  ghost predicate Abandons(f: Fleet, s: System, e: Step)
    requires Enabled(f, s, e)
  {
    && After(f, s, e).holder == Some(e.who)
    && ((s.runs[e.who].at.CancelFence? && !e.landed) || (s.runs[e.who].at.Recover? && e.landed && e.reply.Threw?))
  }

  ghost predicate FenceUntouched(f: Fleet, s: System, events: seq<Step>)
    requires IsRun(f, s, events)
    decreases |events|
  {
    events != [] ==>
      After(f, s, events[0]).doc.fence == s.doc.fence && FenceUntouched(f, After(f, s, events[0]), events[1..])
  }

  /** At some step the attempt abandoned its fence, and nobody has touched it since. */
  ghost predicate LeftStanding(f: Fleet, s: System, events: seq<Step>, a: nat)
    requires IsRun(f, s, events)
    decreases |events|
  {
    events != [] &&
    var t, rest := After(f, s, events[0]), events[1..];
    || (events[0].who == a && Abandons(f, s, events[0]) && FenceUntouched(f, t, rest))
    || LeftStanding(f, t, rest, a)
  }

  ghost predicate OwesFence(f: Fleet, s: System, a: nat)
    requires a in s.runs && a in f.stamps
  {
    Owing(s.runs[a]) && s.doc.fence == Some(Token(s.runs[a], f.stamps[a]))
  }

  /** A claim on the fence: none, one with the release ahead, or one let go of. */
  ghost predicate ClaimsRightly(f: Fleet, s: System, a: nat)
    requires a in s.runs && a in f.stamps
  {
    && InPhase(s.runs[a])
    && (s.doc.user && s.holder == Some(a) ==> OwesFence(f, s, a) || LetGo(s.runs[a]))
  }

  lemma OwnClaim(f: Fleet, s: System, e: Step)
    requires Enabled(f, s, e) && ClaimsRightly(f, s, e.who)
    ensures var t := After(f, s, e);
            && ClaimsRightly(f, t, e.who) && (LetGo(s.runs[e.who]) ==> LetGo(t.runs[e.who]))
            && (LetGo(s.runs[e.who]) ==> t.doc.fence == s.doc.fence)
            && (t.doc.user && t.holder == Some(e.who) && !OwesFence(f, t, e.who) && !LetGo(s.runs[e.who]) ==>
                  Abandons(f, s, e))
  {
    AttemptPhases(s.runs[e.who], e.reply);
  }

  lemma OthersClaim(f: Fleet, s: System, e: Step, a: nat)
    requires Enabled(f, s, e) && a != e.who && a in s.runs && a in f.stamps
    ensures var t := After(f, s, e);
            && t.runs[a] == s.runs[a] && (t.doc.user ==> s.doc.user)
            && (t.holder == Some(a) ==> s.holder == Some(a) && t.doc.fence == s.doc.fence)
  {
  }

  lemma ClaimStep(f: Fleet, s: System, e: Step, a: nat)
    requires Enabled(f, s, e) && a in s.runs && a in f.stamps && ClaimsRightly(f, s, a)
    ensures var t := After(f, s, e);
            && a in t.runs && ClaimsRightly(f, t, a) && (LetGo(s.runs[a]) ==> LetGo(t.runs[a]))
            && (LetGo(s.runs[a]) && t.holder == Some(a) ==> s.holder == Some(a) && t.doc.fence == s.doc.fence)
            && (t.doc.user && t.holder == Some(a) && LetGo(t.runs[a]) && !LetGo(s.runs[a]) ==>
                  e.who == a && Abandons(f, s, e))
  {
    if a == e.who {
      OwnClaim(f, s, e);
    } else {
      OthersClaim(f, s, e, a);
    }
  }

  /** Once an attempt has let go, it is the holder at the end only if it was all along. */
  lemma {:induction false} LetGoKeeps(f: Fleet, s: System, events: seq<Step>, a: nat)
    requires IsRun(f, s, events) && a in s.runs && a in f.stamps && ClaimsRightly(f, s, a) && LetGo(s.runs[a])
    requires Finish(f, s, events).holder == Some(a)
    ensures s.holder == Some(a) && FenceUntouched(f, s, events)
    decreases |events|
  {
    if events != [] {
      ClaimStep(f, s, events[0], a);
      LetGoKeeps(f, After(f, s, events[0]), events[1..], a);
    }
  }

  lemma {:induction false} HolderLetGo(f: Fleet, s: System, events: seq<Step>, a: nat)
    requires IsRun(f, s, events) && a in s.runs && a in f.stamps && ClaimsRightly(f, s, a) && !LetGo(s.runs[a])
    requires var t := Finish(f, s, events); t.doc.user && t.holder == Some(a) && a in t.runs && LetGo(t.runs[a])
    ensures LeftStanding(f, s, events, a)
    decreases |events|
  {
    if events != [] {
      var t, rest := After(f, s, events[0]), events[1..];
      ClaimStep(f, s, events[0], a);
      if LetGo(t.runs[a]) {
        LetGoKeeps(f, t, rest, a);
        UserOutlives(f, t, rest);
      } else {
        HolderLetGo(f, t, rest, a);
      }
    }
  }

  lemma {:induction false} UserOutlives(f: Fleet, s: System, events: seq<Step>)
    requires IsRun(f, s, events) && Finish(f, s, events).doc.user
    ensures s.doc.user
    decreases |events|
  {
    if events != [] {
      UserOutlives(f, After(f, s, events[0]), events[1..]);
    }
  }

  lemma {:induction false} UntouchedKeepsHolder(f: Fleet, s: System, events: seq<Step>)
    requires IsRun(f, s, events) && FenceUntouched(f, s, events)
    ensures Finish(f, s, events).holder == s.holder
    decreases |events|
  {
    if events != [] {
      UntouchedKeepsHolder(f, After(f, s, events[0]), events[1..]);
    }
  }

  lemma {:induction false} StandingHasHolder(f: Fleet, s: System, events: seq<Step>, a: nat)
    requires IsRun(f, s, events) && LeftStanding(f, s, events, a)
    ensures Finish(f, s, events).holder == Some(a)
    decreases |events|
  {
    var t, rest := After(f, s, events[0]), events[1..];
    if events[0].who == a && Abandons(f, s, events[0]) && FenceUntouched(f, t, rest) {
      UntouchedKeepsHolder(f, t, rest);
    } else {
      StandingHasHolder(f, t, rest, a);
    }
  }

  /**
   Over every interleaving, an attempt that ran to its end on a user who is still there leaves a fence
   it set exactly when its release did not land, or its recovery landed though the call threw, and
   nobody has touched the fence since.
   */
  lemma FinishedAttemptLeavesFence(f: Fleet, s: System, events: seq<Step>, a: nat)
    requires Initial(f, s) && IsRun(f, s, events) && a in s.runs
    requires var t := Finish(f, s, events); t.doc.user && a in t.runs && t.runs[a].at.Over?
    ensures Finish(f, s, events).holder == Some(a) <==> LeftStanding(f, s, events, a)
  {
    if Finish(f, s, events).holder == Some(a) {
      HolderLetGo(f, s, events, a);
    }
    if LeftStanding(f, s, events, a) {
      StandingHasHolder(f, s, events, a);
    }
  }

  // ---- steps of attempts that run beside live processes

  /** An attempt whose start found a fence. */
  function Waiting(): Attempt {
    Advance(Fresh(true), InProgress)
  }

  /** The rest of the fleet is where it was. */
  ghost predicate OthersAsWere(s: System, t: System, x: nat) {
    t.runs.Keys == s.runs.Keys && forall y :: y in s.runs && y != x ==> t.runs[y] == s.runs[y]
  }

  lemma StartsWaiting(f: Fleet, s0: System, s: System, x: nat, time: int) returns (t: System)
    requires Reaches(f, s0, s) && x in f.stamps && x in s.runs && s.runs[x] == Fresh(true)
    requires s.doc.user && s.doc.fence.Some? && s.now <= time &&
               f.stamps[x].startedAt <= time < f.stamps[x].startedAt + STALE
    ensures Reaches(f, s0, t) && OthersAsWere(s, t, x) && t.runs[x] == Waiting()
    ensures t.now == time && t.doc == s.doc && t.holder == s.holder
  {
    var e := Step(x, InProgress, true, time);
    t := After(f, s, e);
    ReachesOn(f, s0, s, e);
  }

  lemma Acquires(f: Fleet, s0: System, s: System, x: nat, time: int) returns (t: System)
    requires Reaches(f, s0, s) && x in f.stamps && x in s.runs && s.runs[x] == Fresh(true)
    requires s.doc.user && s.doc.fence.None? && s.now <= time &&
               f.stamps[x].startedAt <= time < f.stamps[x].startedAt + STALE
    ensures Reaches(f, s0, t) && OthersAsWere(s, t, x) && t.runs[x].at.Prepare? && t.runs[x].fence.Started?
    ensures t.now == time && t.doc == Doc(true, Some(f.stamps[x].startedAt)) && t.holder == Some(x)
  {
    var e := Step(x, Acquired, true, time);
    t := After(f, s, e);
    ReachesOn(f, s0, s, e);
  }

  /** The operator confirms, and the call to recover is next. */
  lemma Confirms(f: Fleet, s0: System, s: System, x: nat, time: int) returns (t: System)
    requires Reaches(f, s0, s) && x in f.stamps && x in s.runs && s.runs[x] == Waiting() && s.now <= time
    ensures Reaches(f, s0, t) && OthersAsWere(s, t, x) && t.runs[x] == Advance(Waiting(), Answer(true))
    ensures t.runs[x].at.Recover? && t.now == time && t.doc == s.doc && t.holder == s.holder
  {
    var e := Step(x, Answer(true), true, time);
    t := After(f, s, e);
    ReachesOn(f, s0, s, e);
  }

  lemma Recovers(f: Fleet, s0: System, s: System, x: nat, time: int) returns (t: System)
    requires Reaches(f, s0, s) && x in f.stamps && x in s.runs && s.runs[x] == Waiting()
    requires s.now <= time && f.stamps[x].recoveredAt <= time
    requires s.doc.user && s.doc.fence.Some? && s.doc.fence.value <= f.stamps[x].recoveredAt - STALE
    ensures Reaches(f, s0, t) && OthersAsWere(s, t, x) && t.runs[x].at.Prepare? && t.runs[x].fence.Recovered?
    ensures t.now == time && t.doc == Doc(true, Some(f.stamps[x].recoveredAt)) && t.holder == Some(x)
  {
    var u := Confirms(f, s0, s, x, time);
    var e := Step(x, Acquired, true, time);
    t := After(f, u, e);
    ReachesOn(f, s0, u, e);
  }

  /** A fence left by an attempt that is long gone. */
  function Leftover(f: Fleet, x: nat): int
    requires x in f.stamps
  {
    if f.epoch <= f.stamps[x].recoveredAt - STALE then f.epoch else f.stamps[x].recoveredAt - STALE
  }

  /**
   The recovery that landed though its call threw: from a start that found a leftover fence, the attempt
   runs to its end with its own fence set, never having tried to release it.
   */
  lemma ThrownRecoveryStands(f: Fleet, x: nat) returns (t: System)
    requires StampsInOrder(f) && x in f.stamps
    ensures Initial(f, Calm(f, Some(Leftover(f, x)))) && Reaches(f, Calm(f, Some(Leftover(f, x))), t)
    ensures x in t.runs && t.runs[x].at.Over?
    ensures t.doc == Doc(true, Some(f.stamps[x].recoveredAt)) && t.holder == Some(x)
  {
    var s0, time := Calm(f, Some(Leftover(f, x))), f.stamps[x].recoveredAt;
    ReachesItself(f, s0);
    var s1 := StartsWaiting(f, s0, s0, x, f.stamps[x].startedAt);
    var s2 := Confirms(f, s0, s1, x, time);
    var s3 := ThrowsRecovering(f, s0, s2, x, time);
    var close := Step(x, Ack, true, time);
    t := After(f, s3, close);
    ReachesOn(f, s0, s3, close);
  }

  lemma ThrowsRecovering(f: Fleet, s0: System, s: System, x: nat, time: int) returns (t: System)
    requires Reaches(f, s0, s) && x in f.stamps && x in s.runs && s.runs[x] == Advance(Waiting(), Answer(true))
    requires s.now == time && f.stamps[x].recoveredAt <= time
    requires s.doc.user && s.doc.fence.Some? && s.doc.fence.value <= f.stamps[x].recoveredAt - STALE
    ensures Reaches(f, s0, t) && x in t.runs && t.runs[x].at.CloseCoordination? && t.now == time
    ensures t.doc == Doc(true, Some(f.stamps[x].recoveredAt)) && t.holder == Some(x)
  {
    var thrown := Step(x, Threw, true, time);
    t := After(f, s, thrown);
    ReachesOn(f, s0, s, thrown);
  }
}
