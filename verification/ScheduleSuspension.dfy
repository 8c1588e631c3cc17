/**
 Suspending a user's schedules for an account deletion and restoring them when it is abandoned
 (packages/data-schemas/src/methods/schedule.ts). Both read the rows first and write them later,
 so writes of several attempts, and of abandoned ones, may land in any order.
 */
module ScheduleSuspension {
  import opened Options

  type Id = nat
  type Token = nat

  /** What the owner set: whether a schedule is on, and when it next runs. */
  datatype Setting = Setting(enabled: bool, nextRunAt: Option<int>)

  const FENCED := Setting(false, None)

  datatype Suspension = Suspension(token: Token, saved: Setting)

  datatype Row = Row(current: Setting, deleting: bool, suspension: Option<Suspension>)

  /** The setting the owner is due, whether it is in the row or saved by a suspension. */
  function Due(row: Row): Setting {
    if row.suspension.Some? then row.suspension.value.saved else row.current
  }

  predicate HeldBy(row: Row, token: Token) {
    row.suspension.Some? && row.suspension.value.token == token
  }

  /** The filter both reads and writes of a suspension use. */
  predicate Suspendable(row: Row, token: Token) {
    !row.deleting && !HeldBy(row, token)
  }

  /** The filter both reads and writes of a restore use. */
  predicate Restorable(row: Row, token: Token) {
    !row.deleting && HeldBy(row, token)
  }

  /** A queued write of one row, with the setting its read found. */
  datatype Write =
    | Suspend(id: Id, token: Token, saved: Setting)
    | Restore(id: Id, token: Token, saved: Setting)

  function Landed(row: Row, w: Write): Row {
    match w
    case Suspend(_, token, saved) =>
      if Suspendable(row, token) then Row(FENCED, row.deleting, Some(Suspension(token, saved))) else row
    case Restore(_, token, saved) =>
      if Restorable(row, token) then Row(saved, row.deleting, None) else row
  }

  type Rows = map<Id, Row>

  function WritesToSuspend(rows: Rows, token: Token): set<Write> {
    set id | id in rows && Suspendable(rows[id], token) :: Suspend(id, token, Due(rows[id]))
  }

  function WritesToRestore(rows: Rows, token: Token): set<Write> {
    set id | id in rows && Restorable(rows[id], token) :: Restore(id, token, Due(rows[id]))
  }

  // ---- any interleaving of any attempts and anyone's edits

  datatype NextRun = Unchanged | At(time: int) | Cleared

  /**
   What a write of anyone else changes: the owner's edit, which never clears the next run, or the engine
   moving on to the next occurrence or disabling the schedule.
   */
  datatype Change = Change(enabled: Option<bool>, nextRun: NextRun)

  function Applied(change: Change, was: Setting): Setting {
    Setting(if change.enabled.Some? then change.enabled.value else was.enabled,
            match change.nextRun
            case Unchanged => was.nextRunAt
            case At(time) => Some(time)
            case Cleared => None)
  }

  /**
   The rows, the writes that were queued and may still land, once or again, and the tokens of the
   attempts that have read rows to suspend. A token is fresh, and read for that once.
   */
  datatype System = System(rows: Rows, queued: set<Write>, started: set<Token>)

  datatype Step =
    | ReadToSuspend(token: Token)
    | ReadToRestore(token: Token)
    | Land(write: Write)
    | Abandon(write: Write)
    | MarkDeleting(id: Id)
    | Edit(id: Id, change: Change)

  predicate Enabled(s: System, step: Step) {
    match step
    case ReadToSuspend(token) => token !in s.started
    case ReadToRestore(token) => token in s.started
    case Land(w) => w in s.queued
    case Abandon(_) => true
    case MarkDeleting(id) => id in s.rows
    case Edit(id, _) => id in s.rows
  }

  /**
   Such a write looks at neither the suspension nor the fence. What is written to a row being deleted is of no
   account.
   */
  function Edited(row: Row, change: Change): Row {
    if row.deleting then row else row.(current := Applied(change, row.current))
  }

  function After(s: System, step: Step): System {
    match step
    case ReadToSuspend(token) =>
      s.(queued := s.queued + WritesToSuspend(s.rows, token), started := s.started + {token})
    case ReadToRestore(token) => s.(queued := s.queued + WritesToRestore(s.rows, token))
    case Land(w) => if w.id in s.rows then s.(rows := s.rows[w.id := Landed(s.rows[w.id], w)]) else s
    case Abandon(w) => s.(queued := s.queued - {w})
    case MarkDeleting(id) =>
      if id in s.rows then s.(rows := s.rows[id := s.rows[id].(deleting := true, current := FENCED)]) else s
    case Edit(id, change) => if id in s.rows then s.(rows := s.rows[id := Edited(s.rows[id], change)]) else s
  }

  ghost predicate IsRun(s: System, steps: seq<Step>)
    decreases |steps|
  {
    steps != [] ==> Enabled(s, steps[0]) && IsRun(After(s, steps[0]), steps[1..])
  }

  function Finish(s: System, steps: seq<Step>): System
    decreases |steps|
  {
    if steps == [] then s else Finish(After(s, steps[0]), steps[1..])
  }

  /** Every token that holds a row or has a write queued belongs to an attempt that started. */
  ghost predicate Sane(s: System) {
    && (forall w :: w in s.queued ==> w.token in s.started)
    && (forall id :: id in s.rows && s.rows[id].suspension.Some? ==> s.rows[id].suspension.value.token in s.started)
  }

  lemma StepKeepsSane(s: System, step: Step)
    requires Sane(s) && Enabled(s, step)
    ensures Sane(After(s, step)) && After(s, step).rows.Keys == s.rows.Keys
  {
  }

  /** So does every run; rows with no writes queued start out sane, their holders' attempts having started. */
  lemma {:induction false} RunKeepsSane(s: System, steps: seq<Step>)
    requires Sane(s) && IsRun(s, steps)
    ensures Sane(Finish(s, steps)) && Finish(s, steps).rows.Keys == s.rows.Keys
    decreases |steps|
  {
    if steps != [] {
      StepKeepsSane(s, steps[0]);
      RunKeepsSane(After(s, steps[0]), steps[1..]);
    }
  }

  /** A suspension of the row under this token may still land. */
  predicate SuspendQueued(s: System, id: Id, token: Token) {
    exists w :: w in s.queued && w.Suspend? && w.id == id && w.token == token
  }

  /** The queued write can still change the row: a restore only while its token holds the row or may yet. */
  predicate Live(s: System, id: Id, w: Write)
    requires id in s.rows
  {
    w in s.queued && w.id == id && (w.Restore? ==> HeldBy(s.rows[id], w.token) || SuspendQueued(s, id, w.token))
  }

  /**
   Nothing that can still reach the row carries anything but this setting: not its own suspension, not a live
   write.
   */
  ghost predicate Undisputed(s: System, id: Id, setting: Setting)
    requires id in s.rows
  {
    || s.rows[id].deleting
    || (&& (s.rows[id].suspension.Some? ==> s.rows[id].suspension.value.saved == setting)
        && forall w :: Live(s, id, w) ==> w.saved == setting)
  }

  /** The setting the edit asks for, over the one the owner is due. */
  function Wanted(s: System, id: Id, change: Change): Setting
    requires id in s.rows
  {
    Applied(change, Due(s.rows[id]))
  }

  ghost predicate EditsAreUndisputed(s: System, id: Id, steps: seq<Step>)
    requires id in s.rows
    decreases |steps|
  {
    steps != [] ==>
      && (steps[0].Edit? && steps[0].id == id ==> Undisputed(s, id, Wanted(s, id, steps[0].change)))
      && EditsAreUndisputed(After(s, steps[0]), id, steps[1..])
  }

  /** What the edits in the run make of the setting the row was due before. */
  function LastSetting(id: Id, was: Setting, steps: seq<Step>): Setting
    decreases |steps|
  {
    if steps == [] then was
    else LastSetting(id, if steps[0].Edit? && steps[0].id == id then Applied(steps[0].change, was) else was, steps[1..])
  }

  lemma StepKeepsDue(s: System, step: Step, id: Id)
    requires Sane(s) && id in s.rows && Undisputed(s, id, Due(s.rows[id])) && Enabled(s, step)
    requires step.Edit? && step.id == id ==> Undisputed(s, id, Wanted(s, id, step.change))
    ensures var t := After(s, step);
            && (s.rows[id].deleting ==> t.rows[id].deleting)
            && (t.rows[id].deleting ||
                Due(t.rows[id]) == if step.Edit? && step.id == id then Wanted(s, id, step.change) else Due(s.rows[id]))
            && Undisputed(t, id, Due(t.rows[id]))
  {
  }

  /**
   Whatever suspensions, takeovers, restores, stale and repeated writes happen, in whatever order,
   a row not being deleted is still due what the edits made of it.
   */
  lemma {:induction false} NoSettingIsLost(s: System, steps: seq<Step>, id: Id)
    requires Sane(s) && id in s.rows && Undisputed(s, id, Due(s.rows[id]))
    requires IsRun(s, steps) && EditsAreUndisputed(s, id, steps)
    ensures id in Finish(s, steps).rows
    ensures var row := Finish(s, steps).rows[id];
            row.deleting || Due(row) == LastSetting(id, Due(s.rows[id]), steps)
    decreases |steps|
  {
    if steps != [] {
      StepKeepsDue(s, steps[0], id);
      StepKeepsSane(s, steps[0]);
      var t := After(s, steps[0]);
      NoSettingIsLost(t, steps[1..], id);
      if t.rows[id].deleting {
        DeletingStays(t, steps[1..], id);
      }
    }
  }

  lemma {:induction false} DeletingStays(s: System, steps: seq<Step>, id: Id)
    requires IsRun(s, steps) && id in s.rows && s.rows[id].deleting
    ensures id in Finish(s, steps).rows && Finish(s, steps).rows[id].deleting
    decreases |steps|
  {
    if steps != [] {
      DeletingStays(After(s, steps[0]), steps[1..], id);
    }
  }

  ghost predicate LeavesAlone(id: Id, steps: seq<Step>)
    decreases |steps|
  {
    steps != [] ==> !(steps[0].Edit? && steps[0].id == id) && LeavesAlone(id, steps[1..])
  }

  lemma {:induction false} LeftAlone(s: System, id: Id, was: Setting, steps: seq<Step>)
    requires id in s.rows && LeavesAlone(id, steps)
    ensures LastSetting(id, was, steps) == was && EditsAreUndisputed(s, id, steps)
    decreases |steps|
  {
    if steps != [] {
      LeftAlone(After(s, steps[0]), id, was, steps[1..]);
    }
  }

  // ---- when an edit survives

  /** Without another edit, the row can come out of suspension with this setting. */
  ghost predicate CanEndWith(s: System, id: Id, setting: Setting) {
    exists steps :: IsRun(s, steps) && LeavesAlone(id, steps) && EndsWith(s, steps, id, setting)
  }

  predicate EndsWith(s: System, steps: seq<Step>, id: Id, setting: Setting) {
    var t := Finish(s, steps);
    id in t.rows && t.rows[id] == Row(setting, false, None)
  }

  /** After the edit the row shows what was asked for whenever it is neither suspended nor being deleted. */
  ghost predicate Survives(s: System, id: Id, change: Change)
    requires id in s.rows
  {
    forall setting :: CanEndWith(After(s, Edit(id, change)), id, setting) ==> setting == Wanted(s, id, change)
  }

  lemma CanEndLater(s: System, step: Step, id: Id, setting: Setting)
    requires Enabled(s, step) && !(step.Edit? && step.id == id) && CanEndWith(After(s, step), id, setting)
    ensures CanEndWith(s, id, setting)
  {
    var steps :| IsRun(After(s, step), steps) && LeavesAlone(id, steps) && EndsWith(After(s, step), steps, id, setting);
    assert ([step] + steps)[1..] == steps;
    assert EndsWith(s, [step] + steps, id, setting);
  }

  lemma CanEndNow(s: System, id: Id, setting: Setting)
    requires id in s.rows && s.rows[id] == Row(setting, false, None)
    ensures CanEndWith(s, id, setting)
  {
    assert EndsWith(s, [], id, setting) && LeavesAlone(id, []) && IsRun(s, []);
  }

  lemma {:induction false} FreshToken(tokens: set<Token>) returns (t: Token)
    ensures forall u :: u in tokens ==> u < t
  {
    if tokens == {} {
      t := 0;
    } else {
      var u :| u in tokens;
      var v := FreshToken(tokens - {u});
      assert tokens == (tokens - {u}) + {u};
      t := if u < v then v else u + 1;
    }
  }

  /** Another attempt suspends the row, taking over what it is due. */
  lemma Adopt(s: System, id: Id) returns (token: Token, taken: System)
    requires Sane(s) && id in s.rows && !s.rows[id].deleting
    ensures token !in s.started && Sane(taken) && s.queued <= taken.queued && token in taken.started
    ensures taken.rows.Keys == s.rows.Keys &&
              taken.rows[id] == Row(FENCED, false, Some(Suspension(token, Due(s.rows[id]))))
    ensures forall setting :: CanEndWith(taken, id, setting) ==> CanEndWith(s, id, setting)
  {
    token := FreshToken(s.started);
    var read := After(s, ReadToSuspend(token));
    var w := Suspend(id, token, Due(s.rows[id]));
    assert w in read.queued;
    taken := After(read, Land(w));
    StepKeepsSane(s, ReadToSuspend(token));
    StepKeepsSane(read, Land(w));
    forall setting | CanEndWith(taken, id, setting)
      ensures CanEndWith(s, id, setting)
    {
      CanEndLater(read, Land(w), id, setting);
      CanEndLater(s, ReadToSuspend(token), id, setting);
    }
  }

  /** An attempt that is then abandoned gives the owner what the row was due, whatever the row itself shows. */
  lemma AdoptionRestores(s: System, id: Id)
    requires Sane(s) && id in s.rows && !s.rows[id].deleting
    ensures CanEndWith(s, id, Due(s.rows[id]))
  {
    var due := Due(s.rows[id]);
    var token, taken := Adopt(s, id);
    var read := After(taken, ReadToRestore(token));
    var w := Restore(id, token, due);
    assert w in read.queued;
    CanEndNow(After(read, Land(w)), id, due);
    CanEndLater(read, Land(w), id, due);
    CanEndLater(taken, ReadToRestore(token), id, due);
  }

  /** A queued suspension can always land, if need be after another attempt took the row over. */
  lemma SuspendLands(s: System, w: Write)
    requires Sane(s) && w in s.queued && w.Suspend? && w.id in s.rows && !s.rows[w.id].deleting
    ensures CanEndWith(s, w.id, w.saved)
  {
    if HeldBy(s.rows[w.id], w.token) {
      var token, taken := Adopt(s, w.id);
      AdoptionRestores(After(taken, Land(w)), w.id);
      CanEndLater(taken, Land(w), w.id, w.saved);
    } else {
      StepKeepsSane(s, Land(w));
      AdoptionRestores(After(s, Land(w)), w.id);
      CanEndLater(s, Land(w), w.id, w.saved);
    }
  }

  /** A live queued restore can land, if need be after the suspension of its own attempt. */
  lemma RestoreLands(s: System, w: Write)
    requires w in s.queued && w.Restore? && w.id in s.rows && !s.rows[w.id].deleting && Live(s, w.id, w)
    ensures CanEndWith(s, w.id, w.saved)
  {
    if HeldBy(s.rows[w.id], w.token) {
      CanEndNow(After(s, Land(w)), w.id, w.saved);
      CanEndLater(s, Land(w), w.id, w.saved);
    } else {
      var v :| v in s.queued && v.Suspend? && v.id == w.id && v.token == w.token;
      var held := After(s, Land(v));
      CanEndNow(After(held, Land(w)), w.id, w.saved);
      CanEndLater(held, Land(w), w.id, w.saved);
      CanEndLater(s, Land(v), w.id, w.saved);
    }
  }

  /** What is disputed can be lost: some continuation ends with the other setting. */
  lemma DisputedCanBeLost(s: System, id: Id, setting: Setting) returns (other: Setting)
    requires Sane(s) && id in s.rows && !Undisputed(s, id, setting)
    ensures other != setting && CanEndWith(s, id, other)
  {
    if s.rows[id].suspension.Some? && s.rows[id].suspension.value.saved != setting {
      other := s.rows[id].suspension.value.saved;
      AdoptionRestores(s, id);
    } else {
      var w :| Live(s, id, w) && w.saved != setting;
      other := w.saved;
      if w.Suspend? {
        SuspendLands(s, w);
      } else {
        RestoreLands(s, w);
      }
    }
  }

  /**
   An edit of any row survives every continuation exactly when the row is not suspended with
   another setting and no live queued write carries one.
   */
  lemma EditSurvivesIffUndisputed(s: System, id: Id, change: Change)
    requires Sane(s) && id in s.rows
    ensures Survives(s, id, change) <==> Undisputed(s, id, Wanted(s, id, change))
  {
    var t, wanted := After(s, Edit(id, change)), Wanted(s, id, change);
    StepKeepsSane(s, Edit(id, change));
    EditLeavesDisputes(s, id, change, wanted);
    if Undisputed(s, id, wanted) {
      forall setting | CanEndWith(t, id, setting)
        ensures setting == wanted
      {
        var steps :| IsRun(t, steps) && LeavesAlone(id, steps) && EndsWith(t, steps, id, setting);
        LeftAlone(t, id, Due(t.rows[id]), steps);
        NoSettingIsLost(t, steps, id);
        if t.rows[id].deleting {
          DeletingStays(t, steps, id);
        }
      }
    } else {
      var other := DisputedCanBeLost(t, id, wanted);
    }
  }

  lemma EditLeavesDisputes(s: System, id: Id, change: Change, setting: Setting)
    requires id in s.rows
    ensures var t := After(s, Edit(id, change));
            && (Undisputed(t, id, setting) <==> Undisputed(s, id, setting))
            && t.rows[id].deleting == s.rows[id].deleting
            && (Undisputed(s, id, Wanted(s, id, change)) ==>
                  t.rows[id].deleting || Due(t.rows[id]) == Wanted(s, id, change))
  {
    var t := After(s, Edit(id, change));
    forall w
      ensures Live(t, id, w) <==> Live(s, id, w)
    {
      assert SuspendQueued(t, id, w.token) == SuspendQueued(s, id, w.token);
    }
  }

  /**
   The edit of a row that an abandoned attempt left suspended is lost to the next attempt that is
   abandoned in turn: it takes over what the row was due before the edit, and restores that.
   */
  lemma EditOfSuspendedRowIsLost(was: Setting, change: Change)
    requires Applied(change, was) != was
    ensures var rows := map[0 := Row(FENCED, false, Some(Suspension(1, was)))];
            var steps := [Edit(0, change), ReadToSuspend(2), Land(Suspend(0, 2, was)), ReadToRestore(2),
              Land(Restore(0, 2, was))];
            && IsRun(System(rows, {}, {1}), steps)
            && EndsWith(System(rows, {}, {1}), steps, 0, was)
  {
    var s0 := System(map[0 := Row(FENCED, false, Some(Suspension(1, was)))], {}, {1});
    var adopt, restore := Suspend(0, 2, was), Restore(0, 2, was);
    var s1 := After(s0, Edit(0, change));
    assert Suspendable(s1.rows[0], 2) && Due(s1.rows[0]) == was;
    var s2 := After(s1, ReadToSuspend(2));
    assert adopt in s2.queued;
    var s3 := After(s2, Land(adopt));
    assert Restorable(s3.rows[0], 2) && Due(s3.rows[0]) == was;
    var s4 := After(s3, ReadToRestore(2));
    assert restore in s4.queued;
    var last: seq<Step> := [Land(restore)];
    var steps := [Edit(0, change), ReadToSuspend(2), Land(adopt), ReadToRestore(2), Land(restore)];
    var s5 := After(s4, Land(restore));
    assert last[1..] == [] && IsRun(s5, []) && Finish(s5, []) == s5;
    assert IsRun(s4, last) && Finish(s4, last) == s5;
    assert steps[1..][1..][1..][1..] == last;
    assert IsRun(s3, steps[1..][1..][1..]) && Finish(s3, steps[1..][1..][1..]) == Finish(s4, last);
    assert IsRun(s2, steps[1..][1..]) && Finish(s2, steps[1..][1..]) == Finish(s4, last);
    assert IsRun(s1, steps[1..]) && Finish(s1, steps[1..]) == Finish(s4, last);
  }

  // ---- one attempt on its own

  function SuspendSome(rows: Rows, token: Token, landed: set<Id>): Rows {
    map id | id in rows :: if id in landed then Landed(rows[id], Suspend(id, token, Due(rows[id]))) else rows[id]
  }

  function RestoreSome(rows: Rows, token: Token, landed: set<Id>): Rows {
    map id | id in rows :: if id in landed then Landed(rows[id], Restore(id, token, Due(rows[id]))) else rows[id]
  }

  /** Trying again lands the stragglers only. */
  lemma RestoringAgain(rows: Rows, token: Token, first: set<Id>, second: set<Id>)
    ensures RestoreSome(RestoreSome(rows, token, first), token, second) == RestoreSome(rows, token, first + second)
  {
  }

  /**
   However much of a suspension landed, restoring it gives back every row as it was, apart from the
   rows an abandoned attempt had left suspended: those it took over come back as their owner set them.
   */
  lemma RestoreUndoesSuspend(rows: Rows, token: Token, landed: set<Id>)
    requires forall id :: id in rows ==> !HeldBy(rows[id], token)
    ensures var after := RestoreSome(SuspendSome(rows, token, landed), token, rows.Keys);
            && after.Keys == rows.Keys
            && (forall id :: id in rows ==>
                  after[id] == if id in landed && !rows[id].deleting then Row(Due(rows[id]), false, None) else rows[id])
            && ((forall id :: id in rows ==> rows[id].suspension.None?) ==> after == rows)
  {
  }

  /** A bulk write: all of it landed, or it threw with some of it landed. */
  datatype Bulk = Done | Threw(landed: set<Id>)

  const RESTORE_ATTEMPTS := 3

  class Schedules {
    var rows: Rows

    method SuspendUserSchedulesForDeletion(token: Token, bulk: Bulk) returns (ok: bool)
      modifies this
      ensures ok == bulk.Done?
      ensures rows == SuspendSome(old(rows), token, if ok then old(rows).Keys else bulk.landed)
      ensures ok ==> forall id :: id in rows ==> rows[id].deleting || HeldBy(rows[id], token)
      ensures rows.Keys == old(rows).Keys && forall id :: id in rows ==> Due(rows[id]) == Due(old(rows)[id])
    {
      ok := bulk.Done?;
      var landing := if ok then rows.Keys else bulk.landed;
      rows := SuspendSome(rows, token, landing);
    }

    method RestoreSuspendedBatch(token: Token, bulk: Bulk) returns (ok: bool)
      modifies this
      ensures ok == bulk.Done? && rows == RestoreSome(old(rows), token, if ok then old(rows).Keys else bulk.landed)
    {
      ok := bulk.Done?;
      rows := RestoreSome(rows, token, if ok then rows.Keys else bulk.landed);
    }

    /** Up to three tries, stopping at the first that lands whole; fails only when all three threw. */
    method RestoreUserSchedulesFromDeletion(token: Token, bulks: seq<Bulk>) returns (ok: bool, ghost landed: set<Id>)
      requires |bulks| == RESTORE_ATTEMPTS
      modifies this
      ensures ok <==> exists k :: 0 <= k < RESTORE_ATTEMPTS && bulks[k].Done?
      ensures rows == RestoreSome(old(rows), token, landed)
      ensures ok ==> rows == RestoreSome(old(rows), token, old(rows).Keys)
                     && forall id :: id in rows ==> rows[id].deleting || !HeldBy(rows[id], token)
    {
      var attempt := 0;
      landed := {};
      assert rows == RestoreSome(rows, token, {});
      while attempt < RESTORE_ATTEMPTS
        invariant 0 <= attempt <= RESTORE_ATTEMPTS
        invariant forall k :: 0 <= k < attempt ==> bulks[k].Threw?
        invariant rows == RestoreSome(old(rows), token, landed)
      {
        ghost var before := rows;
        ok := RestoreSuspendedBatch(token, bulks[attempt]);
        RestoringAgain(old(rows), token, landed, if ok then before.Keys else bulks[attempt].landed);
        landed := landed + if ok then before.Keys else bulks[attempt].landed;
        if ok {
          assert RestoreSome(old(rows), token, landed) == RestoreSome(old(rows), token, old(rows).Keys);
          return;
        }
        attempt := attempt + 1;
      }
      ok := false;
    }
  }
}
