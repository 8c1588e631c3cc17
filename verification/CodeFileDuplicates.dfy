/**
 Renaming code-execution files so that a name is used once per conversation and tenant
 (config/migrate-code-file-duplicates.js). Groups are computed before the first rename; any update
 may fail. An absent and a null conversation or tenant are the same scope.
 */
module CodeFileDuplicates {
  import opened Options
  import opened Sequences
  import opened FileNames

  datatype Scope = Scope(conversation: Option<string>, tenant: Option<string>)

  /** A stored file; `code` when its context is code execution. */
  datatype Record = Record(id: int, filename: string, scope: Scope, code: bool, createdAt: Option<int>)

  datatype GroupFile = GroupFile(id: int, createdAt: Option<int>)

  /** One result of the aggregation: a name used more than once in a scope, and the files using it. */
  datatype Group = Group(filename: string, scope: Scope, files: seq<GroupFile>)

  function AsMember(r: Record): GroupFile {
    GroupFile(r.id, r.createdAt)
  }

  predicate Uses(r: Record, filename: string, scope: Scope) {
    r.code && r.filename == filename && r.scope == scope
  }

  ghost predicate DistinctIds(records: seq<Record>) {
    forall i, j :: 0 <= i < j < |records| ==> records[i].id != records[j].id
  }

  /** The group's files are exactly the records using its name in its scope. */
  ghost predicate MembersOf(records: seq<Record>, g: Group) {
    && (forall i :: 0 <= i < |records| ==> (Uses(records[i], g.filename, g.scope) <==> AsMember(records[i]) in g.files))
    && (forall f :: f in g.files ==> exists i :: 0 <= i < |records| && AsMember(records[i]) == f)
    && (forall a, b :: 0 <= a < b < |g.files| ==> g.files[a] != g.files[b])
    && |g.files| > 1
  }

  predicate Collide(r: Record, s: Record) {
    r.code && s.code && r.filename == s.filename && r.scope == s.scope
  }

  predicate SameKey(g: Group, h: Group) {
    g.filename == h.filename && g.scope == h.scope
  }

  /** What the aggregation returns, in any order. */
  ghost predicate IsAggregate(records: seq<Record>, groups: seq<Group>) {
    && (forall k :: 0 <= k < |groups| ==> MembersOf(records, groups[k]))
    && (forall k, l :: 0 <= k < l < |groups| ==> !SameKey(groups[k], groups[l]))
    && (forall i, j :: 0 <= i < j < |records| && Collide(records[i], records[j]) ==>
          exists k :: 0 <= k < |groups| && Uses(records[i], groups[k].filename, groups[k].scope))
  }

  /** The constraint the index enforces. */
  ghost predicate NamesUnique(records: seq<Record>) {
    forall i, j :: 0 <= i < j < |records| ==> !Collide(records[i], records[j])
  }

  // ---- newest first

  function Time(f: GroupFile): int {
    if f.createdAt.Some? then f.createdAt.value else 0
  }

  /** Stable: after everything at least as new. */
  function Insert(sorted: seq<GroupFile>, f: GroupFile): seq<GroupFile> {
    if sorted == [] || Time(sorted[|sorted| - 1]) >= Time(f) then sorted + [f]
    else Insert(sorted[..|sorted| - 1], f) + [sorted[|sorted| - 1]]
  }

  function NewestFirst(files: seq<GroupFile>): seq<GroupFile> {
    if files == [] then [] else Insert(NewestFirst(files[..|files| - 1]), files[|files| - 1])
  }

  ghost predicate Descending(s: seq<GroupFile>) {
    forall a, b :: 0 <= a < b < |s| ==> Time(s[a]) >= Time(s[b])
  }

  lemma {:induction false} InsertBelow(sorted: seq<GroupFile>, f: GroupFile, t: int)
    requires Time(f) >= t && forall a :: 0 <= a < |sorted| ==> Time(sorted[a]) >= t
    ensures forall a :: 0 <= a < |Insert(sorted, f)| ==> Time(Insert(sorted, f)[a]) >= t
  {
    if sorted == [] || Time(sorted[|sorted| - 1]) >= Time(f) {
    } else {
      InsertBelow(sorted[..|sorted| - 1], f, t);
    }
  }

  lemma {:induction false} InsertSorts(sorted: seq<GroupFile>, f: GroupFile)
    requires Descending(sorted)
    ensures Descending(Insert(sorted, f))
  {
    if sorted == [] || Time(sorted[|sorted| - 1]) >= Time(f) {
    } else {
      var n := |sorted| - 1;
      InsertSorts(sorted[..n], f);
      InsertBelow(sorted[..n], f, Time(sorted[n]));
    }
  }

  lemma {:induction false} InsertKeeps(sorted: seq<GroupFile>, f: GroupFile)
    ensures multiset(Insert(sorted, f)) == multiset(sorted) + multiset{f}
  {
    if sorted == [] || Time(sorted[|sorted| - 1]) >= Time(f) {
    } else {
      var n := |sorted| - 1;
      InsertKeeps(sorted[..n], f);
      assert sorted == sorted[..n] + [sorted[n]];
    }
  }

  /** Sorting keeps the files and puts them newest first. */
  lemma {:induction false} NewestFirstSorts(files: seq<GroupFile>)
    ensures Descending(NewestFirst(files))
    ensures multiset(NewestFirst(files)) == multiset(files)
    ensures |NewestFirst(files)| == |files|
  {
    if files == [] {
    } else {
      var n := |files| - 1;
      NewestFirstSorts(files[..n]);
      InsertSorts(NewestFirst(files[..n]), files[n]);
      InsertKeeps(NewestFirst(files[..n]), files[n]);
      assert files == files[..n] + [files[n]];
      assert |multiset(NewestFirst(files))| == |multiset(files)|;
    }
  }

  function Newest(g: Group): GroupFile
    requires g.files != []
  {
    NewestFirstSorts(g.files);
    NewestFirst(g.files)[0]
  }

  function Stale(g: Group): seq<GroupFile>
    requires g.files != []
  {
    NewestFirstSorts(g.files);
    NewestFirst(g.files)[1..]
  }

  lemma SplitNewest(g: Group)
    requires g.files != [] && forall a, b :: 0 <= a < b < |g.files| ==> g.files[a] != g.files[b]
    ensures forall f :: f in g.files <==> f == Newest(g) || f in Stale(g)
    ensures Newest(g) !in Stale(g)
    ensures forall a, b :: 0 <= a < b < |Stale(g)| ==> Stale(g)[a] != Stale(g)[b]
    ensures |Stale(g)| == |g.files| - 1
    ensures forall f :: f in g.files ==> Time(f) <= Time(Newest(g))
  {
    NewestFirstSorts(g.files);
    var s := NewestFirst(g.files);
    DistinctIffSingle(g.files);
    SingleIsDistinct(s);
    SameMembers(s, g.files);
    SplitHead(s);
  }

  lemma SameMembers(s: seq<GroupFile>, t: seq<GroupFile>)
    requires multiset(s) == multiset(t)
    ensures forall f :: f in s <==> f in t
  {
    forall f
      ensures f in s <==> f in t
    {
      assert f in multiset(s) <==> f in multiset(t);
    }
  }

  lemma SplitHead(s: seq<GroupFile>)
    requires s != [] && forall a, b :: 0 <= a < b < |s| ==> s[a] != s[b]
    ensures forall f :: f in s <==> f == s[0] || f in s[1..]
    ensures s[0] !in s[1..]
    ensures forall a, b :: 0 <= a < b < |s[1..]| ==> s[1..][a] != s[1..][b]
  {
    assert s == [s[0]] + s[1..];
  }

  lemma {:induction false} DistinctIffSingle(s: seq<GroupFile>)
    requires forall a, b :: 0 <= a < b < |s| ==> s[a] != s[b]
    ensures forall f :: multiset(s)[f] <= 1
  {
    if s == [] {
    } else {
      var n := |s| - 1;
      DistinctIffSingle(s[..n]);
      assert s == s[..n] + [s[n]];
      assert s[n] !in s[..n];
    }
  }

  lemma {:induction false} SingleIsDistinct(s: seq<GroupFile>)
    requires forall f :: multiset(s)[f] <= 1
    ensures forall a, b :: 0 <= a < b < |s| ==> s[a] != s[b]
  {
    if s == [] {
    } else {
      var n := |s| - 1;
      assert s == s[..n] + [s[n]];
      forall f
        ensures multiset(s[..n])[f] <= 1
      {
        assert multiset(s)[f] >= multiset(s[..n])[f];
      }
      SingleIsDistinct(s[..n]);
      assert multiset(s)[s[n]] == multiset(s[..n])[s[n]] + 1;
      assert s[n] !in multiset(s[..n]);
      assert s[n] !in s[..n];
    }
  }

  // ---- renaming

  datatype Renaming = Renaming(id: int, to: string)

  function Rename(records: seq<Record>, r: Renaming): seq<Record> {
    seq(|records|, i requires 0 <= i < |records| =>
      if records[i].id == r.id then records[i].(filename := r.to) else records[i])
  }

  function RenameAll(records: seq<Record>, renames: seq<Renaming>): seq<Record> {
    if renames == [] then records else Rename(RenameAll(records, renames[..|renames| - 1]), renames[|renames| - 1])
  }

  function ScopeNames(records: seq<Record>, scope: Scope): set<string> {
    set i | 0 <= i < |records| && records[i].code && records[i].scope == scope :: records[i].filename
  }

  ghost predicate IsSuffixed(filename: string, name: string) {
    exists n: nat :: n >= 1 && name == SuffixFilename(filename, n)
  }

  /** Replacements for the stale files of a group: fresh in the scope, and different from each other. */
  ghost predicate FreshRenames(records: seq<Record>, g: Group, renames: seq<Renaming>)
    requires g.files != []
  {
    && |renames| == |Stale(g)|
    && (forall k :: 0 <= k < |renames| ==> renames[k].id == Stale(g)[k].id)
    && (forall k :: 0 <= k < |renames| ==> renames[k].to !in ScopeNames(records, g.scope))
    && (forall k, l :: 0 <= k < l < |renames| ==> renames[k].to != renames[l].to)
    && (forall k :: 0 <= k < |renames| ==> IsSuffixed(g.filename, renames[k].to))
  }

  /** The first `k` stale files have their new names, and those are taken now too. */
  ghost predicate Chosen(stale: seq<GroupFile>, filename: string, names: set<string>, taken: set<string>,
                         renames: seq<Renaming>, k: nat) {
    NamesChosen(stale, names, taken, renames, k) && AllSuffixed(filename, renames)
  }

  ghost predicate AllSuffixed(filename: string, renames: seq<Renaming>) {
    forall j :: 0 <= j < |renames| ==> IsSuffixed(filename, renames[j].to)
  }

  ghost predicate NamesChosen(stale: seq<GroupFile>, names: set<string>, taken: set<string>, renames: seq<Renaming>,
                              k: nat) {
    && |renames| == k <= |stale| && names <= taken
    && (forall j :: 0 <= j < k ==> renames[j].id == stale[j].id && renames[j].to !in names && renames[j].to in taken)
    && (forall j, l :: 0 <= j < l < k ==> renames[j].to != renames[l].to)
  }

  lemma ChoiceExtends(stale: seq<GroupFile>, filename: string, names: set<string>, taken: set<string>,
                      renames: seq<Renaming>, k: nat, n: nat)
    requires Chosen(stale, filename, names, taken, renames, k) && k < |stale| && n >= 1
    requires SuffixFilename(filename, n) !in taken
    ensures var candidate := SuffixFilename(filename, n);
            Chosen(stale, filename, names, taken + {candidate}, renames + [Renaming(stale[k].id, candidate)], k + 1)
  {
    var candidate := SuffixFilename(filename, n);
    assert IsSuffixed(filename, candidate);
    AllSuffixedGrows(filename, renames, Renaming(stale[k].id, candidate));
    NamesChosenGrows(stale, names, taken, renames, k, candidate);
  }

  lemma AllSuffixedGrows(filename: string, renames: seq<Renaming>, next: Renaming)
    requires AllSuffixed(filename, renames) && IsSuffixed(filename, next.to)
    ensures AllSuffixed(filename, renames + [next])
  {
  }

  lemma NamesChosenGrows(stale: seq<GroupFile>, names: set<string>, taken: set<string>,
                         renames: seq<Renaming>, k: nat, candidate: string)
    requires NamesChosen(stale, names, taken, renames, k) && k < |stale| && candidate !in taken
    ensures NamesChosen(stale, names, taken + {candidate}, renames + [Renaming(stale[k].id, candidate)], k + 1)
  {
  }

  /** The update that throws in one group, and whether it took effect all the same. */
  datatype Fault = Fault(at: nat, landed: bool)

  predicate Strikes(fault: Option<Fault>, updates: nat) {
    fault.Some? && fault.value.at < updates
  }

  /** How many of the updates took effect. */
  function Reached(fault: Option<Fault>, updates: nat): (r: nat)
    ensures r <= updates && (!Strikes(fault, updates) ==> r == updates)
  {
    if Strikes(fault, updates) then fault.value.at + (if fault.value.landed then 1 else 0) else updates
  }

  class FileStore {
    var records: seq<Record>

    constructor (records: seq<Record>)
      ensures this.records == records
    {
      this.records := records;
    }

    method UpdateOne(r: Renaming)
      modifies this
      ensures records == Rename(old(records), r)
    {
      records := Rename(records, r);
    }

    method ChooseNames(g: Group) returns (renames: seq<Renaming>)
      requires g.files != []
      ensures FreshRenames(records, g, renames)
    {
      var stale := Stale(g);
      var taken := ScopeNames(records, g.scope);
      ghost var scopeNames := taken;
      renames := [];
      for k := 0 to |stale|
        invariant Chosen(stale, g.filename, scopeNames, taken, renames, k)
      {
        var candidate, taken', n := NextAvailableName(g.filename, taken);
        ChoiceExtends(stale, g.filename, scopeNames, taken, renames, k, n);
        renames := renames + [Renaming(stale[k].id, candidate)];
        taken := taken';
      }
    }

    /** The updates of one group, in order, up to the one that throws. */
    method ApplyRenames(renames: seq<Renaming>, fault: Option<Fault>) returns (failed: bool)
      modifies this
      ensures failed == Strikes(fault, |renames|)
      ensures records == RenameAll(old(records), renames[..Reached(fault, |renames|)])
    {
      TakeAll(renames);
      for k := 0 to |renames|
        invariant records == RenameAll(old(records), renames[..k])
        invariant fault.Some? ==> k <= fault.value.at
      {
        TakeStep(renames, k);
        if fault.Some? && fault.value.at == k {
          if fault.value.landed {
            UpdateOne(renames[k]);
          }
          return true;
        }
        UpdateOne(renames[k]);
      }
      failed := false;
    }

    method NormalizeGroup(g: Group, dryRun: bool, fault: Option<Fault>) returns (renames: seq<Renaming>, failed: bool)
      requires g.files != []
      modifies this
      ensures FreshRenames(old(records), g, renames)
      ensures dryRun ==> records == old(records) && !failed
      ensures !dryRun ==> failed == Strikes(fault, |renames|)
      ensures !dryRun ==> records == RenameAll(old(records), renames[..Reached(fault, |renames|)])
    {
      renames := ChooseNames(g);
      failed := false;
      if !dryRun {
        failed := ApplyRenames(renames, fault);
      }
    }

    /** One group of a live run, with what it means for the run so far. */
    method WorkThrough(groups: seq<Group>, k: nat, fault: Option<Fault>, ghost original: seq<Record>,
                       ghost failedGroups: set<nat>)
      returns (renamed: nat, failed: bool)
      requires IsAggregate(original, groups) && k < |groups|
      requires Sound(records, groups, k, failedGroups) && Tracked(original, records, groups, k, failedGroups != {})
      modifies this
      ensures fault.None? ==> !failed
      ensures !failed ==> renamed == |groups[k].files| - 1
      ensures Sound(records, groups, k + 1, if failed then failedGroups + {k} else failedGroups)
      ensures Tracked(original, records, groups, k + 1, failed || failedGroups != {})
    {
      ghost var before := records;
      assert MembersOf(before, groups[k]);
      var renames;
      renames, failed := NormalizeGroup(groups[k], false, fault);
      SplitNewest(groups[k]);
      ghost var done := Reached(fault, |renames|);
      RenamedAll(before, groups[k], renames, done);
      GroupKeepsSound(before, records, groups, k, failedGroups, renames, done);
      GroupKeepsTracked(original, before, records, groups, k, failedGroups != {}, renames, done);
      renamed := |renames|;
    }

    method Migrate(groups: seq<Group>, faults: seq<Option<Fault>>) returns (filesRenamed: nat, errors: nat)
      requires DistinctIds(records) && IsAggregate(records, groups)
      requires |faults| == |groups|
      modifies this
      ensures Tracked(old(records), records, groups, |groups|, errors > 0)
      ensures errors == 0 ==> NamesUnique(records) && filesRenamed == Surplus(groups)
      ensures (forall k :: 0 <= k < |faults| ==> faults[k] == None) ==> errors == 0
    {
      filesRenamed, errors := 0, 0;
      ghost var failedGroups: set<nat> := {};
      ghost var original := records;
      for k := 0 to |groups|
        invariant Sound(records, groups, k, failedGroups) && Tracked(original, records, groups, k, failedGroups != {})
        invariant errors > 0 <==> failedGroups != {}
        invariant errors == 0 ==> filesRenamed == Surplus(groups[..k])
        invariant (forall j :: 0 <= j < |faults| ==> faults[j] == None) ==> errors == 0
      {
        TakeStep(groups, k);
        var renamed, failed := WorkThrough(groups, k, faults[k], original, failedGroups);
        if failed {
          errors := errors + 1;
          failedGroups := failedGroups + {k};
        } else {
          filesRenamed := filesRenamed + renamed;
        }
      }
      TakeAll(groups);
    }

    /** A dry run reports the same numbers and writes nothing. */
    method DryRun(groups: seq<Group>) returns (filesRenamed: nat)
      requires IsAggregate(records, groups)
      modifies this
      ensures records == old(records) && filesRenamed == Surplus(groups)
    {
      filesRenamed := 0;
      for k := 0 to |groups|
        invariant records == old(records) && filesRenamed == Surplus(groups[..k])
      {
        TakeStep(groups, k);
        assert MembersOf(records, groups[k]);
        var renames, failed := NormalizeGroup(groups[k], true, None);
        SplitNewest(groups[k]);
        filesRenamed := filesRenamed + |renames|;
      }
      TakeAll(groups);
    }
  }

  /** How many files there are beyond the first of each group. */
  function Surplus(groups: seq<Group>): int {
    if groups == [] then 0 else Surplus(groups[..|groups| - 1]) + |groups[|groups| - 1].files| - 1
  }

  /**
   Nothing but names changes; only stale files of the first `n` groups are renamed, and all of them
   unless something failed.
   */
  ghost predicate Tracked(original: seq<Record>, records: seq<Record>, groups: seq<Group>, n: nat, failed: bool) {
    && |records| == |original| && n <= |groups|
    && (forall k :: 0 <= k < |groups| ==> groups[k].files != [])
    && (forall i :: 0 <= i < |original| ==> records[i] == original[i].(filename := records[i].filename))
    && (forall i :: 0 <= i < |original| && records[i] != original[i] ==>
          exists k :: 0 <= k < n && AsMember(original[i]) in Stale(groups[k]))
    && (!failed ==> forall i, k :: 0 <= i < |original| && 0 <= k < n && AsMember(original[i]) in Stale(groups[k]) ==>
          records[i] != original[i])
  }

  // ---- one group, record by record

  lemma {:induction false} RenameAllAt(records: seq<Record>, renames: seq<Renaming>, i: nat)
    requires i < |records|
    requires forall k, l :: 0 <= k < l < |renames| ==> renames[k].id != renames[l].id
    ensures |RenameAll(records, renames)| == |records|
    ensures (forall k :: 0 <= k < |renames| ==> renames[k].id != records[i].id) ==>
              RenameAll(records, renames)[i] == records[i]
    ensures forall k :: 0 <= k < |renames| && renames[k].id == records[i].id ==>
              RenameAll(records, renames)[i] == records[i].(filename := renames[k].to)
    ensures RenameAll(records, renames)[i] == records[i].(filename := RenameAll(records, renames)[i].filename)
  {
    if renames == [] {
    } else {
      RenameAllAt(records, renames[..|renames| - 1], i);
    }
  }

  /** Groups from `k` on are still exactly as aggregated, and only they or the failed ones hide collisions. */
  ghost predicate Sound(records: seq<Record>, groups: seq<Group>, from: nat, failed: set<nat>) {
    && DistinctIds(records)
    && (forall k :: from <= k < |groups| ==> MembersOf(records, groups[k]))
    && (forall i, j :: 0 <= i < j < |records| && Collide(records[i], records[j]) ==>
          exists k :: 0 <= k < |groups| && (from <= k || k in failed) &&
            Uses(records[i], groups[k].filename, groups[k].scope))
  }

  /** What one group's renames did to the records, with the renames that got through. */
  ghost predicate Renamed(records: seq<Record>, records': seq<Record>, g: Group, renames: seq<Renaming>, done: nat)
    requires g.files != []
  {
    && FreshRenames(records, g, renames) && done <= |renames|
    && |records'| == |records|
    && (forall i :: 0 <= i < |records| && (forall k :: 0 <= k < done ==> renames[k].id != records[i].id) ==>
          records'[i] == records[i])
    && (forall i, k :: 0 <= i < |records| && 0 <= k < done && renames[k].id == records[i].id ==>
          records'[i] == records[i].(filename := renames[k].to))
  }

  lemma StaleIdsDistinct(records: seq<Record>, g: Group)
    requires DistinctIds(records) && MembersOf(records, g)
    ensures forall k, l :: 0 <= k < l < |Stale(g)| ==> Stale(g)[k].id != Stale(g)[l].id
    ensures forall k :: 0 <= k < |Stale(g)| ==> Stale(g)[k].id != Newest(g).id
  {
    SplitNewest(g);
    var stale := Stale(g);
    forall f, h | f in g.files && h in g.files && f.id == h.id
      ensures f == h
    {
      var i :| 0 <= i < |records| && AsMember(records[i]) == f;
      var j :| 0 <= j < |records| && AsMember(records[j]) == h;
      assert i == j;
    }
    assert forall k :: 0 <= k < |stale| ==> stale[k] in g.files;
  }

  lemma RenamedAll(records: seq<Record>, g: Group, renames: seq<Renaming>, done: nat)
    requires DistinctIds(records) && MembersOf(records, g) && FreshRenames(records, g, renames) && done <= |renames|
    ensures Renamed(records, RenameAll(records, renames[..done]), g, renames, done)
  {
    StaleIdsDistinct(records, g);
    var through := renames[..done];
    assert forall k :: 0 <= k < done ==> through[k] == renames[k];
    if records != [] {
      RenameAllAt(records, through, 0);
    } else {
      RenameNone(through);
    }
    forall i | 0 <= i < |records|
      ensures (forall k :: 0 <= k < done ==> renames[k].id != records[i].id) ==>
                RenameAll(records, through)[i] == records[i]
      ensures forall k :: 0 <= k < done && renames[k].id == records[i].id ==>
                RenameAll(records, through)[i] == records[i].(filename := renames[k].to)
    {
      RenameAllAt(records, through, i);
    }
  }

  lemma {:induction false} RenameNone(renames: seq<Renaming>)
    ensures RenameAll([], renames) == []
  {
    if renames != [] {
      RenameNone(renames[..|renames| - 1]);
    }
  }

  /** The rename that reached a record, if any. */
  ghost predicate ReachedBy(r: Record, r': Record, renames: seq<Renaming>, done: nat, k: nat)
    requires done <= |renames|
  {
    k < done && renames[k].id == r.id && r'.filename == renames[k].to
  }

  /** A record after the group is as it was, or a former member under its own fresh name. */
  lemma RecordAfter(records: seq<Record>, records': seq<Record>, g: Group, renames: seq<Renaming>, done: nat, i: nat)
    requires DistinctIds(records) && MembersOf(records, g) && Renamed(records, records', g, renames, done) &&
               i < |records|
    ensures records'[i] == records[i].(filename := records'[i].filename)
    ensures records'[i] != records[i] ==>
              Uses(records[i], g.filename, g.scope) &&
                exists k: nat :: ReachedBy(records[i], records'[i], renames, done, k)
  {
    if k :| 0 <= k < done && renames[k].id == records[i].id {
      SplitNewest(g);
      var f := Stale(g)[k];
      assert f in g.files;
      var j :| 0 <= j < |records| && AsMember(records[j]) == f;
      assert j == i;
      assert ReachedBy(records[i], records'[i], renames, done, k);
    }
  }

  /** A changed record bears a name nothing in the scope had before, and no other record has now. */
  lemma FreshNameIsAlone(records: seq<Record>, records': seq<Record>, g: Group, renames: seq<Renaming>,
                         done: nat, i: nat, j: nat)
    requires DistinctIds(records) && MembersOf(records, g) && Renamed(records, records', g, renames, done)
    requires i < |records| && j < |records| && records'[i] != records[i]
    ensures i != j ==> !Collide(records'[i], records'[j])
    ensures records[j].code && records[j].scope == g.scope ==> records'[i].filename != records[j].filename
  {
    RecordAfter(records, records', g, renames, done, i);
    RecordAfter(records, records', g, renames, done, j);
    var k: nat :| ReachedBy(records[i], records'[i], renames, done, k);
    if records[j].code && records[j].scope == g.scope {
      assert records[j].filename in ScopeNames(records, g.scope);
    }
    if i != j && records'[j] != records[j] {
      var l: nat :| ReachedBy(records[j], records'[j], renames, done, l);
      assert k != l;
    }
  }

  /** If every rename of the group got through, only its newest file still uses the name. */
  lemma OnlyNewestKeepsName(records: seq<Record>, records': seq<Record>, g: Group, renames: seq<Renaming>, i: nat)
    requires DistinctIds(records) && MembersOf(records, g) && Renamed(records, records', g, renames, |renames|)
    requires i < |records| && Uses(records[i], g.filename, g.scope)
    ensures records'[i] == records[i] <==> AsMember(records[i]) == Newest(g)
  {
    SplitNewest(g);
    StaleIdsDistinct(records, g);
    var f := AsMember(records[i]);
    assert f in g.files;
    if f != Newest(g) {
      var k :| 0 <= k < |Stale(g)| && Stale(g)[k] == f;
      assert renames[k].id == records[i].id;
      assert records[i].filename in ScopeNames(records, g.scope);
      assert records'[i].filename == renames[k].to;
    }
  }

  lemma MembersSurvive(records: seq<Record>, records': seq<Record>, g: Group, renames: seq<Renaming>, done: nat,
                       h: Group)
    requires DistinctIds(records) && MembersOf(records, g) && Renamed(records, records', g, renames, done)
    requires MembersOf(records, h) && !SameKey(g, h)
    ensures MembersOf(records', h)
  {
    var f := h.files[0];
    assert f in h.files;
    var j :| 0 <= j < |records| && AsMember(records[j]) == f;
    assert Uses(records[j], h.filename, h.scope);
    forall i | 0 <= i < |records'|
      ensures AsMember(records'[i]) == AsMember(records[i])
      ensures Uses(records'[i], h.filename, h.scope) <==> Uses(records[i], h.filename, h.scope)
    {
      RecordAfter(records, records', g, renames, done, i);
      if records'[i] != records[i] {
        FreshNameIsAlone(records, records', g, renames, done, i, j);
      }
    }
    forall f | f in h.files
      ensures exists i :: 0 <= i < |records'| && AsMember(records'[i]) == f
    {
      var i :| 0 <= i < |records| && AsMember(records[i]) == f;
      assert AsMember(records'[i]) == f;
    }
  }

  /** Working through one group leaves the others as aggregated, and settles its own collisions unless it failed. */
  lemma GroupKeepsSound(records: seq<Record>, records': seq<Record>, groups: seq<Group>, k: nat, failed: set<nat>,
                        renames: seq<Renaming>, done: nat)
    requires k < |groups| && Sound(records, groups, k, failed)
    requires forall a, b :: 0 <= a < b < |groups| ==> !SameKey(groups[a], groups[b])
    requires Renamed(records, records', groups[k], renames, done)
    ensures Sound(records', groups, k + 1, if done < |renames| then failed + {k} else failed)
  {
    var g := groups[k];
    var failed' := if done < |renames| then failed + {k} else failed;
    forall i | 0 <= i < |records|
      ensures records'[i] == records[i].(filename := records'[i].filename)
    {
      RecordAfter(records, records', g, renames, done, i);
    }
    forall l | k + 1 <= l < |groups|
      ensures MembersOf(records', groups[l])
    {
      MembersSurvive(records, records', g, renames, done, groups[l]);
    }
    forall i, j | 0 <= i < j < |records'| && Collide(records'[i], records'[j])
      ensures exists l :: 0 <= l < |groups| && (k + 1 <= l || l in failed') &&
                Uses(records'[i], groups[l].filename, groups[l].scope)
    {
      CollisionIsOld(records, records', g, renames, done, i, j);
      var l :| 0 <= l < |groups| && (k <= l || l in failed) && Uses(records[i], groups[l].filename, groups[l].scope);
      if l == k && done == |renames| {
        OnlyNewestKeepsName(records, records', g, renames, i);
        OnlyNewestKeepsName(records, records', g, renames, j);
      }
    }
  }

  lemma CollisionIsOld(records: seq<Record>, records': seq<Record>, g: Group, renames: seq<Renaming>, done: nat,
                       i: nat, j: nat)
    requires DistinctIds(records) && MembersOf(records, g) && Renamed(records, records', g, renames, done)
    requires i < j < |records| && Collide(records'[i], records'[j])
    ensures records'[i] == records[i] && records'[j] == records[j]
  {
    if records'[i] != records[i] {
      FreshNameIsAlone(records, records', g, renames, done, i, j);
    } else if records'[j] != records[j] {
      FreshNameIsAlone(records, records', g, renames, done, j, i);
    }
  }

  lemma GroupKeepsTracked(original: seq<Record>, records: seq<Record>, records': seq<Record>,
                          groups: seq<Group>, k: nat, failed: bool,
                          renames: seq<Renaming>, done: nat)
    requires k < |groups| && Tracked(original, records, groups, k, failed)
    requires IsAggregate(original, groups)
    requires DistinctIds(records) && MembersOf(records, groups[k]) &&
               Renamed(records, records', groups[k], renames, done)
    ensures Tracked(original, records', groups, k + 1, failed || done < |renames|)
  {
    var g := groups[k];
    forall i | 0 <= i < |original|
      ensures records'[i] == original[i].(filename := records'[i].filename)
      ensures records'[i] != records[i] ==> AsMember(original[i]) in Stale(g)
      ensures records'[i] != original[i] ==> records[i] != original[i] || AsMember(original[i]) in Stale(g)
      ensures records[i] != original[i] ==> records'[i] != original[i]
      ensures done == |renames| && AsMember(original[i]) in Stale(g) ==> records'[i] != original[i]
    {
      RecordAfter(records, records', g, renames, done, i);
      SplitNewest(g);
      if records'[i] != records[i] {
        ChangedIsStale(records, records', g, renames, done, i);
      }
      if AsMember(original[i]) in Stale(g) {
        NotYetTouched(original, records, groups, k, failed, i);
        assert AsMember(records[i]) in g.files;
        if done == |renames| {
          OnlyNewestKeepsName(records, records', g, renames, i);
        }
      }
    }
  }

  /** A file is stale in one group only, so no earlier group has renamed it. */
  lemma NotYetTouched(original: seq<Record>, records: seq<Record>, groups: seq<Group>, k: nat, failed: bool, i: nat)
    requires IsAggregate(original, groups) && k < |groups| && Tracked(original, records, groups, k, failed)
    requires i < |original| && AsMember(original[i]) in Stale(groups[k])
    ensures records[i] == original[i]
  {
    if records[i] != original[i] {
      var l :| 0 <= l < k && AsMember(original[i]) in Stale(groups[l]);
      StaleInOneGroup(original, groups, l, k, i);
    }
  }

  lemma ChangedIsStale(records: seq<Record>, records': seq<Record>, g: Group, renames: seq<Renaming>, done: nat, i: nat)
    requires DistinctIds(records) && MembersOf(records, g) && Renamed(records, records', g, renames, done)
    requires i < |records| && records'[i] != records[i]
    ensures AsMember(records[i]) in Stale(g)
  {
    RecordAfter(records, records', g, renames, done, i);
    SplitNewest(g);
    var k: nat :| ReachedBy(records[i], records'[i], renames, done, k);
    var f := Stale(g)[k];
    assert f in g.files;
    var j :| 0 <= j < |records| && AsMember(records[j]) == f;
    assert j == i;
  }

  lemma StaleInOneGroup(original: seq<Record>, groups: seq<Group>, k: nat, l: nat, i: nat)
    requires IsAggregate(original, groups) && k < |groups| && l < |groups| && i < |original|
    requires AsMember(original[i]) in Stale(groups[k]) && AsMember(original[i]) in Stale(groups[l])
    ensures k == l
  {
    SplitNewest(groups[k]);
    SplitNewest(groups[l]);
    assert AsMember(original[i]) in groups[k].files && AsMember(original[i]) in groups[l].files;
    assert SameKey(groups[k], groups[l]) && SameKey(groups[l], groups[k]);
  }

  /** The newest file of every group keeps its name, even in a run with failures. */
  lemma NewestKeepsName(original: seq<Record>, records: seq<Record>, groups: seq<Group>, failed: bool, k: nat, i: nat)
    requires DistinctIds(original) && IsAggregate(original, groups) &&
               Tracked(original, records, groups, |groups|, failed)
    requires k < |groups| && i < |original| && AsMember(original[i]) == Newest(groups[k])
    ensures records[i] == original[i]
    ensures forall j :: 0 <= j < |original| && Uses(original[j], groups[k].filename, groups[k].scope) ==>
              Time(AsMember(original[j])) <= Time(AsMember(original[i]))
  {
    SplitNewest(groups[k]);
    if records[i] != original[i] {
      var l :| 0 <= l < |groups| && AsMember(original[i]) in Stale(groups[l]);
      SplitNewest(groups[l]);
      assert AsMember(original[i]) in groups[k].files && AsMember(original[i]) in groups[l].files;
      assert SameKey(groups[k], groups[l]) && SameKey(groups[l], groups[k]);
    }
  }

  /** Once names are unique the aggregation finds nothing, so a second run renames nothing. */
  lemma SecondRunFindsNothing(records: seq<Record>, groups: seq<Group>)
    requires IsAggregate(records, groups)
    ensures NamesUnique(records) <==> groups == []
  {
    if groups != [] {
      var g := groups[0];
      assert MembersOf(records, g) && g.files[0] != g.files[1];
      assert g.files[0] in g.files && g.files[1] in g.files;
      var i :| 0 <= i < |records| && AsMember(records[i]) == g.files[0];
      var j :| 0 <= j < |records| && AsMember(records[j]) == g.files[1];
      assert Uses(records[i], g.filename, g.scope) && Uses(records[j], g.filename, g.scope);
      assert Collide(records[i], records[j]) && Collide(records[j], records[i]);
      assert i < j || j < i;
    }
  }
}
