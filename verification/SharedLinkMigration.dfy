/**
 Moving shared-link visibility into access-control entries (config/migrate-shared-link-permissions.js).
 The database may fail any subset of a batch's writes, throw, or the process may die at any point.
 */
module SharedLinkMigration {
  import opened Options
  import opened Sequences

  datatype Role = Role(id: string, permBits: int)

  datatype Roles = Roles(owner: Role, viewer: Role)

  /** A shared link; `isPublic` is the legacy field the migration replaces. */
  datatype Link = Link(id: int, user: Option<string>, isPublic: Field<bool>, tenantId: Option<string>,
                       expiredAt: Option<int>)

  datatype Principal = User(userId: string) | Public

  datatype Key = Key(link: int, principal: Principal)

  datatype Entry = Entry(permBits: int, roleId: string, grantedBy: Option<string>, grantedAt: int,
                         expiredAt: Option<int>, principalModel: Option<string>, tenantId: Option<string>)

  type Acl = map<Key, Entry>

  datatype Store = Store(links: seq<Link>, acl: Acl)

  // ---- the upserts

  datatype Op = Op(key: Key, permBits: int, roleId: string, grantedBy: Option<string>, expiredAt: Option<int>,
                   principalModel: Option<string>, tenantId: Option<string>)

  function OwnerOp(l: Link, roles: Roles): Op
    requires l.user.Some?
  {
    Op(Key(l.id, User(l.user.value)), roles.owner.permBits, roles.owner.id, l.user, l.expiredAt, Some("User"),
      l.tenantId)
  }

  function PublicOp(l: Link, roles: Roles): Op {
    Op(Key(l.id, Public), roles.viewer.permBits, roles.viewer.id, l.user, l.expiredAt, None, l.tenantId)
  }

  /** The field is there and is not `false`: null counts as public. */
  predicate WantsPublic(l: Link) {
    !l.isPublic.Absent? && l.isPublic != Present(false)
  }

  function OpsOf(l: Link, roles: Roles): seq<Op> {
    (if l.user.Some? then [OwnerOp(l, roles)] else []) + (if WantsPublic(l) then [PublicOp(l, roles)] else [])
  }

  /** The write a link makes for a principal, if any. */
  function OpAt(l: Link, p: Principal, roles: Roles): Option<Op> {
    match p
    case User(u) => if l.user == Some(u) then Some(OwnerOp(l, roles)) else None
    case Public => if WantsPublic(l) then Some(PublicOp(l, roles)) else None
  }

  /** `$set` over the entry found, `$setOnInsert` only when there was none. */
  function Upsert(op: Op, found: Option<Entry>, now: int): Entry {
    var base := if found.Some? then found.value else Entry(0, "", None, 0, None, op.principalModel, op.tenantId);
    base.(permBits := op.permBits, roleId := op.roleId, grantedAt := now,
          grantedBy := if op.grantedBy.Some? then op.grantedBy else base.grantedBy,
          expiredAt := if op.expiredAt.Some? then op.expiredAt else base.expiredAt)
  }

  function Look(acl: Acl, k: Key): Option<Entry> {
    if k in acl then Some(acl[k]) else None
  }

  /** The entry a key has, ignoring when it was granted. */
  function Untimed(acl: Acl, k: Key): Option<Entry> {
    if k in acl then Some(acl[k].(grantedAt := 0)) else None
  }

  // ---- what a run may do, and what a clean run does

  /** The entry is what one application of the link's write makes of what was there. */
  ghost predicate Granted(before: Acl, after: Acl, l: Link, p: Principal, roles: Roles) {
    OpAt(l, p, roles).Some? ==>
      Untimed(after, Key(l.id, p)) == Some(Upsert(OpAt(l, p, roles).value, Untimed(before, Key(l.id, p)), 0))
  }

  ghost predicate Kept(before: Acl, after: Acl, k: Key) {
    Untimed(after, k) == Untimed(before, k)
  }

  ghost predicate DistinctIds(links: seq<Link>) {
    forall i, j :: 0 <= i < j < |links| ==> links[i].id != links[j].id
  }

  ghost predicate IsLink(links: seq<Link>, id: int) {
    exists i :: 0 <= i < |links| && links[i].id == id
  }

  /** Every entry is as before or as its link's write makes it; the rest of the list is untouched. */
  ghost predicate AclMoved(links: seq<Link>, before: Acl, after: Acl, roles: Roles) {
    && (forall i, p :: 0 <= i < |links| ==>
          Kept(before, after, Key(links[i].id, p))
          || (OpAt(links[i], p, roles).Some? && Granted(before, after, links[i], p, roles)))
    && (forall k: Key :: !IsLink(links, k.link) ==> Kept(before, after, k))
  }

  /**
   What any run may do, finished, failed or cut short anywhere: entries move only to what their
   link's write makes of them, and a link loses its field only after its writes are in place.
   */
  ghost predicate Step(before: Store, after: Store, roles: Roles) {
    && |after.links| == |before.links|
    && AclMoved(before.links, before.acl, after.acl, roles)
    && (forall i :: 0 <= i < |before.links| ==>
          || after.links[i] == before.links[i]
          || (&& after.links[i] == before.links[i].(isPublic := Absent)
              && forall p :: Granted(before.acl, after.acl, before.links[i], p, roles)))
  }

  /** Every write made, every field removed. */
  ghost predicate CleanRun(before: Store, after: Store, roles: Roles) {
    && Step(before, after, roles)
    && (forall i, p :: 0 <= i < |before.links| ==> Granted(before.acl, after.acl, before.links[i], p, roles))
    && (forall i :: 0 <= i < |after.links| ==> after.links[i].isPublic == Absent)
  }

  // ---- the migration

  /** How the database answers one bulk write. Indices name operations of the batch. */
  datatype Answer =
    | Done
    | WriteErrors(failed: set<nat>)
    | Thrown(applied: set<nat>)
    | Crash(applied: set<nat>)

  /** What befalls one run: an answer per batch (Done beyond the list), then the final field removal. */
  datatype Weather = Weather(answers: seq<Answer>, unsetReaches: Option<set<int>>, now: int) {
    function At(batch: nat): Answer {
      if batch < |answers| then answers[batch] else Done
    }

    predicate Fair() {
      unsetReaches.None? && forall i :: 0 <= i < |answers| ==> answers[i] == Done
    }
  }

  datatype Outcome = Aborted | Died | Completed(failedLinkIds: set<int>)

  function Applies(answer: Answer, index: nat): bool {
    match answer
    case Done => true
    case WriteErrors(failed) => index !in failed
    case Thrown(applied) => index in applied
    case Crash(applied) => index in applied
  }

  /** Each operation the answer applies made its upsert; every other entry is as before. */
  ghost predicate BulkApplied(ops: seq<Op>, before: Acl, after: Acl, answer: Answer, now: int) {
    && (forall i :: 0 <= i < |ops| ==>
          Look(after, ops[i].key) == if Applies(answer, i) then Some(Upsert(ops[i], Look(before, ops[i].key), now))
                                     else Look(before, ops[i].key))
    && (forall k :: (forall i :: 0 <= i < |ops| ==> ops[i].key != k) ==> Look(after, k) == Look(before, k))
  }

  class Database {
    var links: seq<Link>
    var acl: Acl

    constructor (links: seq<Link>, acl: Acl)
      ensures this.links == links && this.acl == acl
    {
      this.links, this.acl := links, acl;
    }

    function Contents(): Store
      reads this
    {
      Store(links, acl)
    }

    /** Removes the legacy field from the links not recorded as failed, or from some of them if cut short. */
    method Unset(failed: set<int>, reaches: Option<set<int>>)
      modifies `links
      ensures |links| == |old(links)|
      ensures forall i :: 0 <= i < |links| ==>
                links[i] == if old(links)[i].id !in failed && (reaches.Some? ==> old(links)[i].id in reaches.value)
                            then old(links)[i].(isPublic := Absent) else old(links)[i]
    {
      for i := 0 to |links|
        invariant |links| == |old(links)|
        invariant forall k :: i <= k < |links| ==> links[k] == old(links)[k]
        invariant forall k :: 0 <= k < i ==>
                    links[k] == if old(links)[k].id !in failed && (reaches.Some? ==> old(links)[k].id in reaches.value)
                                then old(links)[k].(isPublic := Absent) else old(links)[k]
      {
        if !links[i].isPublic.Absent? && links[i].id !in failed && (reaches.Some? ==> links[i].id in reaches.value) {
          links := links[i := links[i].(isPublic := Absent)];
        }
      }
    }

    /** An unordered bulk write: some of the operations take effect. */
    method BulkWrite(ops: seq<Op>, answer: Answer, now: int)
      requires forall i, j :: 0 <= i < j < |ops| ==> ops[i].key != ops[j].key
      modifies `acl
      ensures BulkApplied(ops, old(acl), acl, answer, now)
    {
      for n := 0 to |ops|
        invariant forall i :: 0 <= i < n ==>
                    Look(acl, ops[i].key) ==
                      if Applies(answer, i) then Some(Upsert(ops[i], Look(old(acl), ops[i].key), now))
                                             else Look(old(acl), ops[i].key)
        invariant forall i :: n <= i < |ops| ==> Look(acl, ops[i].key) == Look(old(acl), ops[i].key)
        invariant forall k :: (forall i :: 0 <= i < |ops| ==> ops[i].key != k) ==> Look(acl, k) == Look(old(acl), k)
      {
        if Applies(answer, n) {
          acl := acl[ops[n].key := Upsert(ops[n], Look(acl, ops[n].key), now)];
        }
      }
    }
  }

  // ---- one batch

  /** The writes of a batch, link by link. */
  function AllOps(batch: seq<Link>, roles: Roles): seq<Op> {
    if batch == [] then [] else AllOps(batch[..|batch| - 1], roles) + OpsOf(batch[|batch| - 1], roles)
  }

  function IdsOf(links: seq<Link>): set<int> {
    set l | l in links :: l.id
  }

  /** Links one of whose writes the answer reports as failed; all of the batch when the call threw as a whole. */
  function FailedLinks(batch: seq<Link>, answer: Answer, roles: Roles): set<int> {
    var ops := AllOps(batch, roles);
    match answer
    case WriteErrors(failed) => set j | 0 <= j < |ops| && j in failed :: ops[j].key.link
    case Thrown(_) => if ops == [] then {} else IdsOf(batch)
    case Done => {}
    case Crash(_) => {}
  }

  /** Each write belongs to a link of the batch, each link's writes are all there, and no two share a key. */
  ghost predicate OpsOfBatch(batch: seq<Link>, ops: seq<Op>, roles: Roles) {
    && (forall j :: 0 <= j < |ops| ==> exists i :: 0 <= i < |batch| && ops[j].key.link == batch[i].id
                                                    && OpAt(batch[i], ops[j].key.principal, roles) == Some(ops[j]))
    && (forall i, p :: 0 <= i < |batch| && OpAt(batch[i], p, roles).Some? ==> OpAt(batch[i], p, roles).value in ops)
    && (forall j, k :: 0 <= j < k < |ops| ==> ops[j].key != ops[k].key)
  }

  lemma OpsOfOneLink(l: Link, roles: Roles)
    ensures var ops := OpsOf(l, roles);
            && (forall j :: 0 <= j < |ops| ==>
                  ops[j].key.link == l.id && OpAt(l, ops[j].key.principal, roles) == Some(ops[j]))
            && (forall p :: OpAt(l, p, roles).Some? ==> OpAt(l, p, roles).value in ops)
            && (forall j, k :: 0 <= j < k < |ops| ==> ops[j].key != ops[k].key)
  {
    var owner, public := (if l.user.Some? then [OwnerOp(l, roles)] else []),
      (if WantsPublic(l) then [PublicOp(l, roles)] else []);
    assert OpsOf(l, roles) == owner + public;
    forall p | OpAt(l, p, roles).Some?
      ensures OpAt(l, p, roles).value in OpsOf(l, roles)
    {
      assert OpAt(l, p, roles).value in owner || OpAt(l, p, roles).value in public;
    }
  }

  lemma OneMoreLink(batch: seq<Link>, n: nat, before: seq<Op>, last: seq<Op>, roles: Roles)
    requires DistinctIds(batch) && n + 1 == |batch|
    requires OpsOfBatch(batch[..n], before, roles) && last == OpsOf(batch[n], roles)
    ensures OpsOfBatch(batch, before + last, roles)
  {
    var ops := before + last;
    OpsOfOneLink(batch[n], roles);
    forall j | 0 <= j < |ops|
      ensures exists i :: 0 <= i < |batch| && ops[j].key.link == batch[i].id
                           && OpAt(batch[i], ops[j].key.principal, roles) == Some(ops[j])
      ensures ops[j].key.link == batch[n].id <==> j >= |before|
    {
      if j < |before| {
        var i :| 0 <= i < n && before[j].key.link == batch[..n][i].id
                 && OpAt(batch[..n][i], before[j].key.principal, roles) == Some(before[j]);
        assert batch[i] == batch[..n][i] && batch[i].id != batch[n].id;
      } else {
        assert ops[j] == last[j - |before|];
      }
    }
    forall i, p | 0 <= i < |batch| && OpAt(batch[i], p, roles).Some?
      ensures OpAt(batch[i], p, roles).value in ops
    {
      assert i < n ==> batch[..n][i] == batch[i];
    }
  }

  lemma {:induction false} AllOpsOfBatch(batch: seq<Link>, roles: Roles)
    requires DistinctIds(batch)
    ensures OpsOfBatch(batch, AllOps(batch, roles), roles)
  {
    if batch == [] {
    } else {
      var n := |batch| - 1;
      AllOpsOfBatch(batch[..n], roles);
      OneMoreLink(batch, n, AllOps(batch[..n], roles), OpsOf(batch[n], roles), roles);
    }
  }

  /** How the entries of a batch's links may have moved, and which of those links are settled. */
  ghost predicate BatchMoved(batch: seq<Link>, before: Acl, after: Acl, settled: set<int>, roles: Roles) {
    && AclMoved(batch, before, after, roles)
    && (forall i, p :: 0 <= i < |batch| && batch[i].id in settled ==> Granted(before, after, batch[i], p, roles))
  }

  lemma BulkWriteMoves(batch: seq<Link>, ops: seq<Op>, before: Acl, after: Acl, answer: Answer, now: int, roles: Roles)
    requires DistinctIds(batch) && ops == AllOps(batch, roles)
    requires BulkApplied(ops, before, after, answer, now)
    ensures answer.Crash? ==> BatchMoved(batch, before, after, {}, roles)
    ensures !answer.Crash? ==>
              BatchMoved(batch, before, after, IdsOf(batch) - FailedLinks(batch, answer, roles), roles)
  {
    AllOpsOfBatch(batch, roles);
    forall i, p | 0 <= i < |batch|
      ensures Kept(before, after, Key(batch[i].id, p))
              || (OpAt(batch[i], p, roles).Some? && Granted(before, after, batch[i], p, roles))
      ensures !answer.Crash? && batch[i].id !in FailedLinks(batch, answer, roles) ==>
                Granted(before, after, batch[i], p, roles)
    {
      EntryMoves(batch, ops, before, after, answer, now, roles, i, p);
    }
    forall k: Key | !IsLink(batch, k.link)
      ensures Kept(before, after, k)
    {
      assert forall j :: 0 <= j < |ops| ==> ops[j].key != k;
      assert Look(after, k) == Look(before, k);
    }
  }

  /** The entry one of the operations is about. */
  lemma EntryWritten(batch: seq<Link>, ops: seq<Op>, before: Acl, after: Acl, answer: Answer, now: int,
                     roles: Roles, i: nat, p: Principal, j: nat)
    requires ops == AllOps(batch, roles) && BulkApplied(ops, before, after, answer, now)
    requires i < |batch| && j < |ops| && OpAt(batch[i], p, roles) == Some(ops[j]) && ops[j].key == Key(batch[i].id, p)
    ensures if Applies(answer, j) then Granted(before, after, batch[i], p, roles)
            else Kept(before, after, Key(batch[i].id, p))
                 && (!answer.Crash? ==> batch[i].id in FailedLinks(batch, answer, roles))
  {
    var k := ops[j].key;
    assert Look(after, k) == if Applies(answer, j) then Some(Upsert(ops[j], Look(before, k), now)) else Look(before, k);
    if !Applies(answer, j) {
      assert answer.WriteErrors? ==> ops[j].key.link in FailedLinks(batch, answer, roles);
      assert answer.Thrown? ==> batch[i] in batch && batch[i].id in FailedLinks(batch, answer, roles);
    }
  }

  lemma EntryUntouched(batch: seq<Link>, ops: seq<Op>, before: Acl, after: Acl, answer: Answer, now: int,
                       roles: Roles, i: nat, p: Principal)
    requires DistinctIds(batch) && OpsOfBatch(batch, ops, roles) && BulkApplied(ops, before, after, answer, now)
    requires i < |batch| && OpAt(batch[i], p, roles).None?
    ensures Kept(before, after, Key(batch[i].id, p))
  {
    var k := Key(batch[i].id, p);
    forall j | 0 <= j < |ops|
      ensures ops[j].key != k
    {
    }
    assert Look(after, k) == Look(before, k);
  }

  lemma EntryMoves(batch: seq<Link>, ops: seq<Op>, before: Acl, after: Acl, answer: Answer, now: int,
                   roles: Roles, i: nat, p: Principal)
    requires DistinctIds(batch) && ops == AllOps(batch, roles) && OpsOfBatch(batch, ops, roles)
    requires BulkApplied(ops, before, after, answer, now) && i < |batch|
    ensures Kept(before, after, Key(batch[i].id, p))
            || (OpAt(batch[i], p, roles).Some? && Granted(before, after, batch[i], p, roles))
    ensures !answer.Crash? && batch[i].id !in FailedLinks(batch, answer, roles) ==>
              Granted(before, after, batch[i], p, roles)
  {
    if OpAt(batch[i], p, roles).Some? {
      var op := OpAt(batch[i], p, roles).value;
      assert op in ops;
      var j :| 0 <= j < |ops| && ops[j] == op;
      EntryWritten(batch, ops, before, after, answer, now, roles, i, p, j);
    } else {
      EntryUntouched(batch, ops, before, after, answer, now, roles, i, p);
    }
  }

  lemma FailedByIndex(batch: seq<Link>, answer: Answer, roles: Roles, opIndexToLinkId: seq<int>)
    requires answer.WriteErrors? && |opIndexToLinkId| == |AllOps(batch, roles)|
    requires forall j :: 0 <= j < |opIndexToLinkId| ==> opIndexToLinkId[j] == AllOps(batch, roles)[j].key.link
    ensures FailedLinks(batch, answer, roles) ==
            set j | 0 <= j < |opIndexToLinkId| && j in answer.failed :: opIndexToLinkId[j]
  {
    var ops := AllOps(batch, roles);
    var byIndex := set j | 0 <= j < |opIndexToLinkId| && j in answer.failed :: opIndexToLinkId[j];
    forall l | l in FailedLinks(batch, answer, roles)
      ensures l in byIndex
    {
      var j :| 0 <= j < |ops| && j in answer.failed && ops[j].key.link == l;
      assert opIndexToLinkId[j] == l;
    }
    forall l | l in byIndex
      ensures l in FailedLinks(batch, answer, roles)
    {
      var j :| 0 <= j < |opIndexToLinkId| && j in answer.failed && opIndexToLinkId[j] == l;
      assert ops[j].key.link == l;
    }
  }

  class Migration {
    const db: Database
    const roles: Roles
    var failedLinkIds: set<int>

    constructor (db: Database, roles: Roles)
      ensures this.db == db && this.roles == roles && failedLinkIds == {}
    {
      this.db, this.roles, failedLinkIds := db, roles, {};
    }

    /** Sends one batch; `crashed` when the process does not survive the call. */
    method ProcessBatch(batch: seq<Link>, answer: Answer, now: int) returns (crashed: bool)
      requires DistinctIds(batch)
      modifies `failedLinkIds, db`acl
      ensures crashed == answer.Crash?
      ensures crashed ==> failedLinkIds == old(failedLinkIds) && BatchMoved(batch, old(db.acl), db.acl, {}, roles)
      ensures !crashed ==>
                && failedLinkIds == old(failedLinkIds) + FailedLinks(batch, answer, roles)
                && BatchMoved(batch, old(db.acl), db.acl, IdsOf(batch) - FailedLinks(batch, answer, roles), roles)
    {
      var bulkOps: seq<Op> := [];
      var opIndexToLinkId: seq<int> := [];
      for i := 0 to |batch|
        modifies {}
        invariant bulkOps == AllOps(batch[..i], roles)
        invariant |opIndexToLinkId| == |bulkOps|
        invariant forall j :: 0 <= j < |bulkOps| ==> opIndexToLinkId[j] == bulkOps[j].key.link
      {
        TakeStep(batch, i);
        var link := batch[i];
        if link.user.Some? {
          opIndexToLinkId := opIndexToLinkId + [link.id];
          bulkOps := bulkOps + [OwnerOp(link, roles)];
        }
        if link.isPublic == Present(false) {
        } else if !link.isPublic.Absent? {
          opIndexToLinkId := opIndexToLinkId + [link.id];
          bulkOps := bulkOps + [PublicOp(link, roles)];
        }
      }
      TakeAll(batch);
      AllOpsOfBatch(batch, roles);
      ghost var before := db.acl;
      if |bulkOps| > 0 {
        db.BulkWrite(bulkOps, answer, now);
        if answer.WriteErrors? {
          assert FailedLinks(batch, answer, roles) ==
                 set j | 0 <= j < |opIndexToLinkId| && j in answer.failed :: opIndexToLinkId[j] by {
            FailedByIndex(batch, answer, roles, opIndexToLinkId);
          }
          failedLinkIds := failedLinkIds
            + set j | 0 <= j < |opIndexToLinkId| && j in answer.failed :: opIndexToLinkId[j];
        } else if answer.Thrown? {
          failedLinkIds := failedLinkIds + IdsOf(batch);
        }
      }
      BulkWriteMoves(batch, bulkOps, before, db.acl, answer, now, roles);
      crashed := answer.Crash?;
    }

    /** `ProcessBatch` for the links up to number `to`, with what that means for the run so far. */
    method SendBatch(links: seq<Link>, to: nat, batch: seq<Link>, answer: Answer, now: int,
                     ghost before: Acl) returns (crashed: bool)
      requires DistinctIds(links) && |batch| <= to <= |links| && batch == links[to - |batch|..to]
      requires Progress(links, to - |batch|, before, db.acl, failedLinkIds, roles)
      modifies `failedLinkIds, db`acl
      ensures crashed == answer.Crash?
      ensures AclMoved(links, before, db.acl, roles)
      ensures !crashed ==> Progress(links, to, before, db.acl, failedLinkIds, roles)
      ensures answer.Done? ==> failedLinkIds == old(failedLinkIds)
    {
      ghost var mid, failed := db.acl, failedLinkIds;
      crashed := ProcessBatch(batch, answer, now);
      BatchAdvances(links, to - |batch|, to, batch, before, mid, db.acl, failed, FailedLinks(batch, answer, roles),
                    failedLinkIds, crashed, roles);
    }

    /** Sends all links in cursor order, a batch whenever one is full and what is left at the end. */
    method SendAll(links: seq<Link>, batchSize: int, weather: Weather, ghost before: Acl) returns (crashed: bool)
      requires DistinctIds(links) && Progress(links, 0, before, db.acl, failedLinkIds, roles) && failedLinkIds == {}
      modifies `failedLinkIds, db`acl
      ensures AclMoved(links, before, db.acl, roles)
      ensures !crashed ==> Progress(links, |links|, before, db.acl, failedLinkIds, roles)
      ensures weather.Fair() ==> !crashed && failedLinkIds == {}
    {
      var batch: seq<Link> := [];
      var batchIndex := 0;
      for n := 0 to |links|
        modifies `failedLinkIds, db`acl
        invariant |batch| <= n && batch == links[n - |batch|..n]
        invariant Progress(links, n - |batch|, before, db.acl, failedLinkIds, roles)
        invariant weather.Fair() ==> failedLinkIds == {}
      {
        SliceAppend(links, n - |batch|, n);
        batch := batch + [links[n]];
        if |batch| >= batchSize {
          crashed := SendBatch(links, n + 1, batch, weather.At(batchIndex), weather.now, before);
          if crashed {
            return;
          }
          batchIndex := batchIndex + 1;
          batch := [];
        }
      }
      crashed := false;
      if |batch| > 0 {
        crashed := SendBatch(links, |links|, batch, weather.At(batchIndex), weather.now, before);
      }
    }

    /** One live run. */
    method Migrate(batchSize: int, force: bool, weather: Weather) returns (outcome: Outcome)
      requires DistinctIds(db.links) && failedLinkIds == {}
      modifies this, db
      ensures Step(old(db.Contents()), db.Contents(), roles)
      ensures outcome.Aborted? <==>
                !force && exists i :: 0 <= i < |old(db.links)| && old(db.links)[i].isPublic == Present(false)
      ensures outcome.Aborted? ==> db.Contents() == old(db.Contents())
      ensures outcome.Completed? ==> Recorded(old(db.Contents()), db.Contents(), outcome.failedLinkIds, roles)
      ensures weather.Fair() && !outcome.Aborted? ==>
                outcome == Completed({}) && CleanRun(old(db.Contents()), db.Contents(), roles)
    {
      var links := db.links;
      ghost var before := db.acl;
      if !force && exists i :: 0 <= i < |links| && links[i].isPublic == Present(false) {
        return Aborted;
      }
      var crashed := SendAll(links, batchSize, weather, before);
      if crashed {
        return Died;
      }
      db.Unset(failedLinkIds, weather.unsetReaches);
      UnsetSettles(links, db.links, before, db.acl, failedLinkIds, weather.unsetReaches, roles);
      outcome := if weather.unsetReaches.Some? then Died else Completed(failedLinkIds);
    }
  }

  /** A finished run keeps the field of exactly the links it recorded as failed; all others are fully migrated. */
  ghost predicate Recorded(before: Store, after: Store, failed: set<int>, roles: Roles) {
    && |after.links| == |before.links|
    && (forall i :: 0 <= i < |before.links| ==>
          if before.links[i].id in failed then after.links[i] == before.links[i]
          else after.links[i] == before.links[i].(isPublic := Absent)
               && forall p :: Granted(before.acl, after.acl, before.links[i], p, roles))
  }

  /**
   After the first `n` links: theirs are the only entries that can have moved, and the unrecorded ones are
   settled.
   */
  ghost predicate Progress(links: seq<Link>, n: nat, before: Acl, acl: Acl, failed: set<int>, roles: Roles) {
    && AclMoved(links, before, acl, roles)
    && (forall i, p :: n <= i < |links| ==> Kept(before, acl, Key(links[i].id, p)))
    && (forall i, p :: 0 <= i < n <= |links| && links[i].id !in failed ==> Granted(before, acl, links[i], p, roles))
  }

  lemma BatchAdvances(links: seq<Link>, from: nat, to: nat, batch: seq<Link>, before: Acl, mid: Acl, after: Acl,
                      failed: set<int>, newly: set<int>, failed': set<int>, crashed: bool, roles: Roles)
    requires from <= to <= |links| && DistinctIds(links) && batch == links[from..to]
    requires Progress(links, from, before, mid, failed, roles)
    requires crashed ==> BatchMoved(batch, mid, after, {}, roles)
    requires !crashed ==> failed' == failed + newly && BatchMoved(batch, mid, after, IdsOf(batch) - newly, roles)
    ensures AclMoved(links, before, after, roles)
    ensures !crashed ==> Progress(links, to, before, after, failed', roles)
  {
    forall i, p | 0 <= i < |links|
      ensures Kept(before, after, Key(links[i].id, p))
              || (OpAt(links[i], p, roles).Some? && Granted(before, after, links[i], p, roles))
      ensures to <= i ==> Kept(before, after, Key(links[i].id, p))
      ensures !crashed && i < to && links[i].id !in failed' ==> Granted(before, after, links[i], p, roles)
    {
      if from <= i < to {
        assert batch[i - from] == links[i] && links[i] in batch;
        if !crashed && links[i].id !in failed' {
          assert batch[i - from].id in IdsOf(batch) - newly;
          assert Granted(mid, after, batch[i - from], p, roles);
        }
      } else {
        assert !IsLink(batch, links[i].id);
        assert Kept(mid, after, Key(links[i].id, p));
        if i < from && !crashed && links[i].id !in failed' {
          assert Granted(before, mid, links[i], p, roles);
        }
      }
    }
    forall k: Key | !IsLink(links, k.link)
      ensures Kept(before, after, k)
    {
      assert !IsLink(batch, k.link);
      assert Kept(mid, after, k);
    }
  }

  /** The field removal at the end of a run. */
  ghost predicate Removed(links: seq<Link>, links': seq<Link>, failed: set<int>, reaches: Option<set<int>>) {
    && |links'| == |links|
    && (forall i :: 0 <= i < |links| ==>
          links'[i] == if links[i].id !in failed && (reaches.Some? ==> links[i].id in reaches.value)
                       then links[i].(isPublic := Absent) else links[i])
  }

  lemma UnsetSettles(links: seq<Link>, links': seq<Link>, before: Acl, acl: Acl, failed: set<int>,
                     reaches: Option<set<int>>, roles: Roles)
    requires Progress(links, |links|, before, acl, failed, roles) && Removed(links, links', failed, reaches)
    ensures Step(Store(links, before), Store(links', acl), roles)
    ensures reaches.None? ==> Recorded(Store(links, before), Store(links', acl), failed, roles)
    ensures reaches.None? && failed == {} ==> CleanRun(Store(links, before), Store(links', acl), roles)
  {
  }

  // ---- what every sequence of runs keeps, and where it ends

  lemma OpSurvives(l: Link, p: Principal, roles: Roles)
    ensures var l' := l.(isPublic := Absent);
            OpAt(l', p, roles) == if p.Public? then None else OpAt(l, p, roles)
  {
  }

  lemma UpsertIdempotent(op: Op, found: Option<Entry>, now: int, later: int)
    ensures Upsert(op, Some(Upsert(op, found, now)), later) == Upsert(op, found, later)
  {
  }

  lemma StepEntry(a: Store, b: Store, c: Store, roles: Roles, i: nat, p: Principal)
    requires Step(a, b, roles) && Step(b, c, roles) && i < |a.links|
    ensures Kept(a.acl, c.acl, Key(a.links[i].id, p))
            || (OpAt(a.links[i], p, roles).Some? && Granted(a.acl, c.acl, a.links[i], p, roles))
    ensures Granted(a.acl, b.acl, a.links[i], p, roles) ==> Granted(a.acl, c.acl, a.links[i], p, roles)
    ensures b.links[i] == a.links[i] && Granted(b.acl, c.acl, b.links[i], p, roles) ==>
              Granted(a.acl, c.acl, a.links[i], p, roles)
  {
    var l, k := a.links[i], Key(a.links[i].id, p);
    OpSurvives(l, p, roles);
    assert b.links[i].id == l.id;
    if OpAt(l, p, roles).Some? {
      UpsertIdempotent(OpAt(l, p, roles).value, Untimed(a.acl, k), 0, 0);
    }
  }

  /** Runs compose: any number of them, however they ended, may do no more than one. */
  lemma StepTransitive(a: Store, b: Store, c: Store, roles: Roles)
    requires Step(a, b, roles) && Step(b, c, roles)
    ensures Step(a, c, roles)
  {
    forall i, p | 0 <= i < |a.links|
      ensures Kept(a.acl, c.acl, Key(a.links[i].id, p))
              || (OpAt(a.links[i], p, roles).Some? && Granted(a.acl, c.acl, a.links[i], p, roles))
    {
      StepEntry(a, b, c, roles, i, p);
    }
    forall i | 0 <= i < |a.links|
      ensures || c.links[i] == a.links[i]
              || (&& c.links[i] == a.links[i].(isPublic := Absent)
                  && forall p :: Granted(a.acl, c.acl, a.links[i], p, roles))
    {
      if c.links[i] != a.links[i] {
        forall p
          ensures Granted(a.acl, c.acl, a.links[i], p, roles)
        {
          StepEntry(a, b, c, roles, i, p);
        }
      }
    }
    forall k: Key | !IsLink(a.links, k.link)
      ensures Kept(a.acl, c.acl, k)
    {
      assert !IsLink(b.links, k.link);
    }
  }

  /** States the database goes through, one run after another, each finished, failed or cut short. */
  ghost predicate Runs(states: seq<Store>, roles: Roles) {
    states != []
    && (|states| > 1 ==>
          Runs(states[..|states| - 1], roles) && Step(states[|states| - 2], states[|states| - 1], roles))
  }

  lemma {:induction false} RunsAreOneStep(states: seq<Store>, roles: Roles)
    requires Runs(states, roles)
    ensures Step(states[0], states[|states| - 1], roles)
  {
    if |states| > 1 {
      RunsAreOneStep(states[..|states| - 1], roles);
      StepTransitive(states[0], states[|states| - 2], states[|states| - 1], roles);
    }
  }

  /**
   At every point of every sequence of runs: a link meant to be public still says so or already has
   its public viewer entry, and the migration gives no public entry to any other link.
   */
  lemma VisibilityIsNeverLost(states: seq<Store>, roles: Roles, i: nat)
    requires Runs(states, roles) && i < |states[0].links|
    ensures var first, last, l := states[0], states[|states| - 1], states[0].links[i];
            && |last.links| == |first.links|
            && (WantsPublic(l) && last.links[i].isPublic != l.isPublic ==>
                  var e := Untimed(last.acl, Key(l.id, Public));
                  e.Some? && e.value.roleId == roles.viewer.id && e.value.permBits == roles.viewer.permBits)
            && (!WantsPublic(l) ==> Kept(first.acl, last.acl, Key(l.id, Public)))
  {
    RunsAreOneStep(states, roles);
    var first, last, l := states[0], states[|states| - 1], states[0].links[i];
    assert OpAt(l, Public, roles).Some? <==> WantsPublic(l);
    assert Granted(first.acl, last.acl, l, Public, roles) || last.links[i] == l;
  }

  /** A clean run after any history ends exactly where a clean run from the start would have. */
  lemma MigrationConverges(states: seq<Store>, end: Store, direct: Store, roles: Roles)
    requires Runs(states, roles)
    requires CleanRun(states[|states| - 1], end, roles) && CleanRun(states[0], direct, roles)
    ensures end.links == direct.links
    ensures forall k :: Untimed(end.acl, k) == Untimed(direct.acl, k)
  {
    var a, b := states[0], states[|states| - 1];
    RunsAreOneStep(states, roles);
    forall i | 0 <= i < |a.links|
      ensures end.links[i] == direct.links[i]
    {
      assert b.links[i] == a.links[i] || b.links[i] == a.links[i].(isPublic := Absent);
      assert end.links[i].isPublic == Absent && direct.links[i].isPublic == Absent;
    }
    forall k: Key
      ensures Untimed(end.acl, k) == Untimed(direct.acl, k)
    {
      if IsLink(a.links, k.link) {
        var i :| 0 <= i < |a.links| && a.links[i].id == k.link;
        ConvergesAt(a, b, end, direct, roles, i, k.principal);
      } else {
        assert !IsLink(b.links, k.link);
        assert Kept(a.acl, b.acl, k) && Kept(b.acl, end.acl, k) && Kept(a.acl, direct.acl, k);
      }
    }
  }

  lemma ConvergesAt(a: Store, b: Store, end: Store, direct: Store, roles: Roles, i: nat, p: Principal)
    requires Step(a, b, roles) && CleanRun(b, end, roles) && CleanRun(a, direct, roles) && i < |a.links|
    ensures Untimed(end.acl, Key(a.links[i].id, p)) == Untimed(direct.acl, Key(a.links[i].id, p))
  {
    var l, k := a.links[i], Key(a.links[i].id, p);
    StepEntry(a, b, end, roles, i, p);
    OpSurvives(l, p, roles);
    assert Granted(b.acl, end.acl, b.links[i], p, roles) && Granted(a.acl, direct.acl, l, p, roles);
    assert b.links[i].id == l.id;
    if OpAt(l, p, roles).Some? {
      UpsertIdempotent(OpAt(l, p, roles).value, Untimed(a.acl, k), 0, 0);
    } else {
      assert Kept(a.acl, direct.acl, Key(a.links[i].id, p));
    }
  }
}
