/**
 When two deletion attempts can be at work on a living user at once: only through a recovery, and
 exactly when the stamps of the attempts allow one to take over from another that is still at work.
 */
module DeletionOverlap {
  import opened Options
  import opened DeleteUser
  import opened DeletionFence

  /** The attempt replaced a stale fence, or tried to and was not told whether it did. */
  predicate MayHaveRecovered(r: Attempt) {
    Event(Recover, Acquired) in r.log || Event(Recover, Threw) in r.log
  }

  ghost predicate NobodyRecovered(s: System) {
    forall c :: c in s.runs ==> !MayHaveRecovered(s.runs[c])
  }

  ghost predicate Owns(f: Fleet, s: System, a: nat)
    requires a in s.runs && a in f.stamps
  {
    s.doc.fence == Some(Token(s.runs[a], f.stamps[a])) && s.holder == Some(a)
  }

  ghost predicate AllOwn(f: Fleet, s: System)
    requires s.runs.Keys == f.stamps.Keys
  {
    s.doc.user ==> forall a :: a in s.runs && AtWork(s.runs[a]) ==> Owns(f, s, a)
  }

  ghost predicate AllInPhase(s: System) {
    forall a :: a in s.runs ==> InPhase(s.runs[a])
  }

  lemma StepKeepsPhases(f: Fleet, s: System, e: Step)
    requires Enabled(f, s, e) && AllInPhase(s)
    ensures AllInPhase(After(f, s, e))
  {
    AdvanceKeepsPhase(s.runs[e.who], e.reply);
  }

  // ---- one step

  lemma AttemptGoesToWork(r: Attempt, reply: Reply)
    requires Plausible(r.at, reply) && InPhase(r) && AtWork(Advance(r, reply))
    ensures AtWork(r) || (r.at.Begin? && reply.Acquired?) || (r.at.Recover? && reply.Acquired?)
    ensures AtWork(r) ==> Advance(r, reply).fence == r.fence && !r.at.CancelFence?
  {
  }

  /** The attempt that makes the step stays the owner, or becomes it. */
  lemma OwnStep(f: Fleet, s: System, e: Step)
    requires Enabled(f, s, e) && InPhase(s.runs[e.who]) && After(f, s, e).doc.user && AtWork(After(f, s, e).runs[e.who])
    requires AtWork(s.runs[e.who]) ==> Owns(f, s, e.who)
    ensures Owns(f, After(f, s, e), e.who)
  {
    AttemptGoesToWork(s.runs[e.who], e.reply);
  }

  /** The step takes a fence over. */
  ghost predicate Takes(f: Fleet, s: System, e: Step)
    requires Enabled(f, s, e)
  {
    s.runs[e.who].at.Recover? && e.landed && After(f, s, e).doc.fence != s.doc.fence
  }

  /** Another's step leaves the owner the owner, unless it takes the fence over. */
  lemma OthersStep(f: Fleet, s: System, e: Step, a: nat)
    requires StampsInOrder(f) && StartsApart(f) && Invariant(f, s) && Enabled(f, s, e)
    requires After(f, s, e).doc.user && a in s.runs && a != e.who && Owns(f, s, a) && !Takes(f, s, e)
    ensures Owns(f, After(f, s, e), a)
  {
    ReleaseIsByTheHolder(f, s, e);
  }

  lemma UserWasThere(f: Fleet, s: System, e: Step)
    requires Enabled(f, s, e) && After(f, s, e).doc.user
    ensures s.doc.user
  {
  }

  /** Owners stay owners in any step that takes no fence over from an attempt at work. */
  lemma StepKeepsAllOwn(f: Fleet, s: System, e: Step)
    requires StampsInOrder(f) && StartsApart(f) && Invariant(f, s) && AllInPhase(s) && Enabled(f, s, e) && AllOwn(f, s)
    requires Takes(f, s, e) && s.doc.user ==> forall a :: a in s.runs && a != e.who ==> !AtWork(s.runs[a])
    ensures After(f, s, e).runs.Keys == f.stamps.Keys && AllOwn(f, After(f, s, e))
  {
    var t := After(f, s, e);
    if t.doc.user {
      UserWasThere(f, s, e);
      forall a | a in t.runs && AtWork(t.runs[a])
        ensures Owns(f, t, a)
      {
        if a == e.who {
          OwnStep(f, s, e);
        } else {
          assert t.runs[a] == s.runs[a];
          OthersStep(f, s, e, a);
        }
      }
    }
  }

  // ---- without a recovery

  lemma NobodyYet(f: Fleet, s: System, e: Step)
    requires Enabled(f, s, e) && NobodyRecovered(After(f, s, e))
    ensures NobodyRecovered(s) && !Takes(f, s, e)
  {
    var t := After(f, s, e);
    forall c | c in s.runs
      ensures !MayHaveRecovered(s.runs[c])
    {
      assert c in t.runs;
      assert s.runs[c].log <= t.runs[c].log;
    }
    var log := s.runs[e.who].log + [Event(s.runs[e.who].at, e.reply)];
    assert t.runs[e.who].log == log && log[|log| - 1] == Event(s.runs[e.who].at, e.reply);
    assert !MayHaveRecovered(t.runs[e.who]);
  }

  lemma InitialOwns(f: Fleet, s: System)
    requires Initial(f, s)
    ensures Invariant(f, s) && AllInPhase(s) && AllOwn(f, s)
  {
    assert forall a :: a in s.runs ==> s.runs[a].fence.NoFence? && s.runs[a].at.Begin?;
  }

  lemma {:induction false} NobodyBefore(f: Fleet, s: System, events: seq<Step>)
    requires IsRun(f, s, events) && NobodyRecovered(Finish(f, s, events))
    ensures NobodyRecovered(s)
    decreases |events|
  {
    if events != [] {
      NobodyBefore(f, After(f, s, events[0]), events[1..]);
      NobodyYet(f, s, events[0]);
    }
  }

  lemma {:induction false} WorkersOwn(f: Fleet, s: System, events: seq<Step>)
    requires StampsInOrder(f) && StartsApart(f) && Invariant(f, s) && AllInPhase(s) && AllOwn(f, s)
    requires IsRun(f, s, events) && NobodyRecovered(Finish(f, s, events))
    ensures Finish(f, s, events).runs.Keys == f.stamps.Keys && AllOwn(f, Finish(f, s, events))
    decreases |events|
  {
    if events != [] {
      var t := After(f, s, events[0]);
      NobodyBefore(f, t, events[1..]);
      NobodyYet(f, s, events[0]);
      StepKeepsInvariant(f, s, events[0]);
      StepKeepsPhases(f, s, events[0]);
      StepKeepsAllOwn(f, s, events[0]);
      WorkersOwn(f, t, events[1..]);
    }
  }

  /** Two attempts are at work on a living user. */
  ghost predicate Overlap(s: System, a: nat, b: nat) {
    s.doc.user && a in s.runs && b in s.runs && a != b && AtWork(s.runs[a]) && AtWork(s.runs[b])
  }

  /**
   Two attempts are at work on a living user at once only if one of the attempts has recovered a stale
   fence, for which an operator vouched that every other process is stopped. So without a recovery no
   attempt suspends schedules that another has yet to give back.
   */
  lemma WorkIsExclusiveUnlessRecovered(f: Fleet, s: System, events: seq<Step>, a: nat, b: nat)
    requires StampsInOrder(f) && StartsApart(f) && Initial(f, s) && IsRun(f, s, events)
    requires Overlap(Finish(f, s, events), a, b)
    ensures !NobodyRecovered(Finish(f, s, events))
  {
    InitialOwns(f, s);
    if NobodyRecovered(Finish(f, s, events)) {
      WorkersOwn(f, s, events);
    }
  }

  // ---- what the stamps allow

  /** Some attempt would recover at least fifteen minutes after another started. */
  ghost predicate SomeoneOutlasted(f: Fleet) {
    exists a, c :: a in f.stamps && c in f.stamps && a != c && f.stamps[a].startedAt + STALE <= f.stamps[c].recoveredAt
  }

  ghost predicate CanOverlap(f: Fleet) {
    exists s, t, a, b :: Initial(f, s) && Reaches(f, s, t) && Overlap(t, a, b)
  }

  /** Otherwise no recovery takes the fence of an attempt at work. */
  lemma NobodyIsTakenOver(f: Fleet, s: System, e: Step, a: nat)
    requires StampsInOrder(f) && !SomeoneOutlasted(f) && Enabled(f, s, e) && Takes(f, s, e)
    requires a in s.runs && a in f.stamps && a != e.who && s.doc.user && AtWork(s.runs[a])
    ensures !Owns(f, s, a)
  {
    var started, recovered := f.stamps[a].startedAt, f.stamps[e.who].recoveredAt;
    assert Owns(f, s, a) ==> started + STALE <= recovered;
  }

  lemma {:induction false} NeverOverlaps(f: Fleet, s: System, events: seq<Step>)
    requires StampsInOrder(f) && StartsApart(f) && !SomeoneOutlasted(f)
    requires Invariant(f, s) && AllInPhase(s) && AllOwn(f, s) && IsRun(f, s, events)
    ensures forall a, b :: !Overlap(Finish(f, s, events), a, b)
    decreases |events|
  {
    if events != [] {
      var e := events[0];
      StepKeepsInvariant(f, s, e);
      StepKeepsPhases(f, s, e);
      if Takes(f, s, e) && s.doc.user {
        forall a | a in s.runs && a != e.who
          ensures !AtWork(s.runs[a])
        {
          if AtWork(s.runs[a]) {
            NobodyIsTakenOver(f, s, e, a);
          }
        }
      }
      StepKeepsAllOwn(f, s, e);
      NeverOverlaps(f, After(f, s, e), events[1..]);
    }
  }

  /** The attempt whose fence went stale knows nothing of the recovery and works on. */
  lemma TakeOver(f: Fleet, a: nat, c: nat) returns (t: System)
    requires StampsInOrder(f) && a in f.stamps && c in f.stamps && a != c
    requires f.stamps[a].startedAt + STALE <= f.stamps[c].recoveredAt
    requires f.stamps[a].startedAt < f.stamps[c].startedAt + STALE
    ensures Initial(f, Calm(f, None)) && Reaches(f, Calm(f, None), t) && Overlap(t, a, c)
  {
    var s0, A, C := Calm(f, None), f.stamps[a], f.stamps[c];
    ReachesItself(f, s0);
    var s1 := Acquires(f, s0, s0, a, A.startedAt);
    var s2 := StartsWaiting(f, s0, s1, c, if A.startedAt <= C.startedAt then C.startedAt else A.startedAt);
    t := Recovers(f, s0, s2, c, C.recoveredAt);
  }

  /**
   Some interleaving puts two attempts to work on a living user at once exactly when some attempt would
   recover at least fifteen minutes after another started.
   */
  lemma OverlapIffSomeoneOutlasted(f: Fleet)
    requires StampsInOrder(f) && StartsApart(f)
    ensures CanOverlap(f) <==> SomeoneOutlasted(f)
  {
    if SomeoneOutlasted(f) {
      var a: nat, c: nat :| a in f.stamps && c in f.stamps && a != c
        && f.stamps[a].startedAt + STALE <= f.stamps[c].recoveredAt;
      if f.stamps[a].startedAt < f.stamps[c].startedAt + STALE {
        var t := TakeOver(f, a, c);
      } else {
        var t := TakeOver(f, c, a);
      }
    } else {
      forall s, t, a, b | Initial(f, s) && Reaches(f, s, t)
        ensures !Overlap(t, a, b)
      {
        var events :| IsRun(f, s, events) && Finish(f, s, events) == t;
        InitialOwns(f, s);
        NeverOverlaps(f, s, events);
      }
    }
  }
}
