/**
 Deletion attempts and the schedules they suspend, together: under the fence, an attempt gives back what
 it suspended, and nobody else has had it in the meantime. The writes of a call land within the call.
 */
module FencedSuspension {
  import opened Options
  import opened DeleteUser
  import F = DeletionFence
  import O = DeletionOverlap
  import S = ScheduleSuspension

  /** The attempts, the rows (an attempt's number is its suspension token), and the rows each attempt suspended. */
  datatype Joint = Joint(sys: F.System, rows: S.Rows, took: map<nat, set<S.Id>>)

  /** A call of an attempt, with the rows its writes reached; or the owner at work. */
  datatype Step =
    | Call(e: F.Step, ids: set<S.Id>)
    | MarkDeleting(id: S.Id)
    | Edit(id: S.Id, change: S.Change)

  ghost predicate Enabled(f: F.Fleet, j: Joint, step: Step) {
    step.Call? ==> F.Enabled(f, j.sys, step.e)
  }

  function Took(j: Joint, a: nat): set<S.Id> {
    if a in j.took then j.took[a] else {}
  }

  /** The rows among these that the attempt's suspension takes. */
  function Taken(rows: S.Rows, a: nat, ids: set<S.Id>): set<S.Id> {
    set id | id in rows && id in ids && S.Suspendable(rows[id], a)
  }

  function RowsAfter(rows: S.Rows, call: Call, a: nat, ids: set<S.Id>): S.Rows {
    match call
    case Suspend => S.SuspendSome(rows, a, ids)
    case Restore => S.RestoreSome(rows, a, ids)
    case DeleteSchedules => rows - ids
    case _ => rows
  }

  ghost function After(f: F.Fleet, j: Joint, step: Step): Joint
    requires Enabled(f, j, step)
  {
    match step
    case Call(e, ids) =>
      var call := j.sys.runs[e.who].at;
      Joint(F.After(f, j.sys, e), RowsAfter(j.rows, call, e.who, ids),
            if call.Suspend? then j.took[e.who := Took(j, e.who) + Taken(j.rows, e.who, ids)] else j.took)
    case MarkDeleting(id) =>
      if id in j.rows then j.(rows := j.rows[id := j.rows[id].(deleting := true, current := S.FENCED)]) else j
    case Edit(id, change) =>
      if id in j.rows then j.(rows := j.rows[id := S.Edited(j.rows[id], change)]) else j
  }

  ghost predicate IsRun(f: F.Fleet, j: Joint, steps: seq<Step>)
    decreases |steps|
  {
    steps != [] ==> Enabled(f, j, steps[0]) && IsRun(f, After(f, j, steps[0]), steps[1..])
  }

  ghost function Finish(f: F.Fleet, j: Joint, steps: seq<Step>): Joint
    requires IsRun(f, j, steps)
    decreases |steps|
  {
    if steps == [] then j else Finish(f, After(f, j, steps[0]), steps[1..])
  }

  ghost predicate Initial(f: F.Fleet, j: Joint) {
    F.Initial(f, j.sys) && j.took == map[]
  }

  // ---- what an attempt at work took, it has

  ghost predicate Has(j: Joint, a: nat) {
    forall id :: id in Took(j, a) && id in j.rows ==> j.rows[id].deleting || S.HeldBy(j.rows[id], a)
  }

  ghost predicate WorkersHave(j: Joint) {
    j.sys.doc.user && O.NobodyRecovered(j.sys) ==> forall a :: a in j.sys.runs && F.AtWork(j.sys.runs[a]) ==> Has(j, a)
  }

  lemma OwnCallKeeps(f: F.Fleet, j: Joint, step: Step)
    requires Enabled(f, j, step) && step.Call? && Has(j, step.e.who) && !j.sys.runs[step.e.who].at.Restore?
    ensures Has(After(f, j, step), step.e.who)
  {
  }

  lemma OthersCallKeeps(f: F.Fleet, j: Joint, step: Step, a: nat)
    requires Enabled(f, j, step) && step.Call? && a != step.e.who && Has(j, a) && !j.sys.runs[step.e.who].at.Suspend?
    ensures Has(After(f, j, step), a)
  {
  }

  lemma OwnerKeeps(f: F.Fleet, j: Joint, step: Step, a: nat)
    requires Enabled(f, j, step) && !step.Call? && Has(j, a)
    ensures Has(After(f, j, step), a) && After(f, j, step).sys == j.sys
  {
  }

  /** Only an attempt that tried to suspend has taken rows. */
  ghost predicate TookToSuspend(j: Joint) {
    forall a :: a in j.sys.runs && Took(j, a) != {} ==> j.sys.runs[a].suspended
  }

  lemma CallKeepsTook(f: F.Fleet, j: Joint, step: Step)
    requires Enabled(f, j, step) && step.Call? && TookToSuspend(j)
    ensures TookToSuspend(After(f, j, step))
  {
    var t := After(f, j, step);
    forall a | a in t.sys.runs && Took(t, a) != {}
      ensures t.sys.runs[a].suspended
    {
      assert a == step.e.who || t.sys.runs[a] == j.sys.runs[a];
    }
  }

  /** Everything a run keeps as long as nobody has recovered a fence. */
  ghost predicate Kept(f: F.Fleet, j: Joint) {
    && F.Invariant(f, j.sys) && O.AllInPhase(j.sys) && O.AllOwn(f, j.sys) && TookToSuspend(j) && WorkersHave(j)
  }

  /** Two attempts at work would both own the fence. */
  lemma OneAtWork(f: F.Fleet, j: Joint, a: nat, b: nat)
    requires Kept(f, j) && j.sys.doc.user && a in j.sys.runs && b in j.sys.runs
    requires F.AtWork(j.sys.runs[a]) && F.AtWork(j.sys.runs[b])
    ensures a == b
  {
    assert O.Owns(f, j.sys, a) && O.Owns(f, j.sys, b);
  }

  lemma WorkerHas(f: F.Fleet, j: Joint, step: Step, a: nat)
    requires Kept(f, j) && Enabled(f, j, step) && step.Call? && O.NobodyRecovered(j.sys)
    requires var t := After(f, j, step); t.sys.doc.user && a in t.sys.runs && F.AtWork(t.sys.runs[a])
    ensures Has(After(f, j, step), a)
  {
    O.UserWasThere(f, j.sys, step.e);
    var r := j.sys.runs[step.e.who];
    if a == step.e.who {
      O.AttemptGoesToWork(r, step.e.reply);
      if F.AtWork(r) {
        StillAtWork(r, step.e.reply);
        OwnCallKeeps(f, j, step);
      }
    } else {
      if r.at.Suspend? {
        OneAtWork(f, j, a, step.e.who);
      }
      OthersCallKeeps(f, j, step, a);
    }
  }

  lemma StillAtWork(r: Attempt, reply: Reply)
    requires Plausible(r.at, reply) && F.AtWork(Advance(r, reply))
    ensures !r.at.Restore?
  {
  }

  lemma StepKeeps(f: F.Fleet, j: Joint, step: Step)
    requires F.StampsInOrder(f) && F.StartsApart(f) && Kept(f, j) && Enabled(f, j, step)
    requires O.NobodyRecovered(After(f, j, step).sys)
    ensures Kept(f, After(f, j, step)) && O.NobodyRecovered(j.sys)
  {
    var t := After(f, j, step);
    if step.Call? {
      O.NobodyYet(f, j.sys, step.e);
      F.StepKeepsInvariant(f, j.sys, step.e);
      O.StepKeepsPhases(f, j.sys, step.e);
      O.StepKeepsAllOwn(f, j.sys, step.e);
      CallKeepsTook(f, j, step);
      forall a | t.sys.doc.user && a in t.sys.runs && F.AtWork(t.sys.runs[a])
        ensures Has(t, a)
      {
        WorkerHas(f, j, step, a);
      }
    } else {
      forall a | a in j.sys.runs && Has(j, a)
        ensures Has(t, a)
      {
        OwnerKeeps(f, j, step, a);
      }
      assert forall a :: Took(t, a) == Took(j, a);
    }
  }

  lemma {:induction false} NobodyBefore(f: F.Fleet, j: Joint, steps: seq<Step>)
    requires IsRun(f, j, steps) && O.NobodyRecovered(Finish(f, j, steps).sys)
    ensures O.NobodyRecovered(j.sys)
    decreases |steps|
  {
    if steps != [] {
      NobodyBefore(f, After(f, j, steps[0]), steps[1..]);
      if steps[0].Call? {
        O.NobodyYet(f, j.sys, steps[0].e);
      }
    }
  }

  lemma {:induction false} RunKeeps(f: F.Fleet, j: Joint, steps: seq<Step>)
    requires F.StampsInOrder(f) && F.StartsApart(f) && Kept(f, j) && IsRun(f, j, steps)
    requires O.NobodyRecovered(Finish(f, j, steps).sys)
    ensures Kept(f, Finish(f, j, steps))
    decreases |steps|
  {
    if steps != [] {
      NobodyBefore(f, After(f, j, steps[0]), steps[1..]);
      StepKeeps(f, j, steps[0]);
      RunKeeps(f, After(f, j, steps[0]), steps[1..]);
    }
  }

  // ---- what the owner was due comes back

  ghost predicate LeavesAlone(id: S.Id, steps: seq<Step>)
    decreases |steps|
  {
    steps != [] ==> !(steps[0].Edit? && steps[0].id == id) && LeavesAlone(id, steps[1..])
  }

  lemma StepKeepsDue(f: F.Fleet, j: Joint, step: Step, id: S.Id)
    requires Enabled(f, j, step) && !(step.Edit? && step.id == id) && id in After(f, j, step).rows
    ensures id in j.rows && (j.rows[id].deleting ==> After(f, j, step).rows[id].deleting)
    ensures After(f, j, step).rows[id].deleting || S.Due(After(f, j, step).rows[id]) == S.Due(j.rows[id])
  {
  }

  lemma {:induction false} RunKeepsDue(f: F.Fleet, j: Joint, steps: seq<Step>, id: S.Id)
    requires IsRun(f, j, steps) && LeavesAlone(id, steps) && id in Finish(f, j, steps).rows
    ensures id in j.rows && (j.rows[id].deleting ==> Finish(f, j, steps).rows[id].deleting)
    ensures Finish(f, j, steps).rows[id].deleting || S.Due(Finish(f, j, steps).rows[id]) == S.Due(j.rows[id])
    decreases |steps|
  {
    if steps != [] {
      RunKeepsDue(f, After(f, j, steps[0]), steps[1..], id);
      StepKeepsDue(f, j, steps[0], id);
    }
  }

  /**
   As long as nobody has recovered a fence: when an attempt comes to restore, every row its suspension
   took is still held by it, whatever other attempts did, and restoring gives each back, with the setting
   the owner was due before the run if the owner has not edited it since.
   */
  lemma RestoreMeetsItsOwn(f: F.Fleet, j: Joint, steps: seq<Step>, a: nat, id: S.Id)
    requires F.StampsInOrder(f) && F.StartsApart(f) && Initial(f, j) && IsRun(f, j, steps)
    requires var t := Finish(f, j, steps);
             && t.sys.doc.user && O.NobodyRecovered(t.sys) && a in t.sys.runs && t.sys.runs[a].at.Restore?
             && id in Took(t, a) && id in t.rows && !t.rows[id].deleting
    ensures var t := Finish(f, j, steps);
            && S.HeldBy(t.rows[id], a)
            && S.RestoreSome(t.rows, a, t.rows.Keys)[id] == S.Row(S.Due(t.rows[id]), false, None)
            && (LeavesAlone(id, steps) ==> id in j.rows && S.Due(t.rows[id]) == S.Due(j.rows[id]))
  {
    O.InitialOwns(f, j.sys);
    assert forall b :: Took(j, b) == {};
    assert Kept(f, j);
    RunKeeps(f, j, steps);
    assert Has(Finish(f, j, steps), a);
    if LeavesAlone(id, steps) {
      RunKeepsDue(f, j, steps, id);
    }
  }
}
