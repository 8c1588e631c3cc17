/**
 Re-attaching the files of earlier messages to the next turn (BaseClient.addPreviousAttachments,
 rehydrateMessageFileRefs, collectHistoricalFileIds, buildOwnerFileFilter).
 */
module HistoricalFiles {
  import opened Options
  import opened Sequences

  /** The remaining properties of a stored file or of a reference to one. */
  type Fields = map<string, string>

  /** A stored file. */
  datatype File = File(fileId: string, owner: string, tenant: Option<string>, fields: Fields)

  /** A reference kept on a message; an empty `fileId` stands for a missing one. */
  datatype Ref = Ref(fileId: string, fields: Fields)

  datatype User = User(id: string, tenant: Option<string>)

  const PER_MESSAGE_FIELDS := {"messageId", "toolCallId"}
  const TOOL_KEYS := {"file_search", "web_search", "ui_resources", "memory"}
  const DISPLAY_FIELDS := {"filename", "filepath", "expiresAt", "conversationId", "messageId", "toolCallId", "name"}

  function Pick(fields: Fields, keys: set<string>): Fields {
    map k | k in fields && k in keys :: fields[k]
  }

  // ---- which files the owner may see

  predicate Owned(file: File, user: User) {
    file.owner == user.id && (user.tenant.Some? ==> file.tenant == user.tenant)
  }

  /** The owner filter: the referenced ids, the user, and the tenant when the user has one. */
  predicate Matches(file: File, ids: set<string>, user: User) {
    file.fileId in ids && Owned(file, user)
  }

  function GetFiles(db: seq<File>, ids: set<string>, user: User): seq<File> {
    if db == [] then []
    else (if Matches(db[0], ids, user) then [db[0]] else []) + GetFiles(db[1..], ids, user)
  }

  lemma {:induction false} GetFilesExactly(db: seq<File>, ids: set<string>, user: User, file: File)
    ensures file in GetFiles(db, ids, user) <==> file in db && Matches(file, ids, user)
  {
    if db == [] {
    } else {
      GetFilesExactly(db[1..], ids, user, file);
      assert file in db <==> file == db[0] || file in db[1..];
    }
  }

  // ---- one list of references

  /** A display-only attachment shows a fixed set of properties; nothing at all when it has none of them. */
  function DisplayFields(ref: Ref): Fields {
    Pick(ref.fields, DISPLAY_FIELDS)
    + (if "type" in ref.fields && ref.fields["type"] in TOOL_KEYS then map["type" := ref.fields["type"]] else map[])
    + Pick(ref.fields, TOOL_KEYS)
  }

  /** What becomes of one reference: the owner's stored file, a display-only remnant, or nothing. */
  function Rehydrated(ref: Ref, authorized: map<string, File>, sanitize: Fields -> Fields,
                      preserveDisplayOnly: bool): seq<Ref> {
    if ref.fileId in authorized then
      [Ref(ref.fileId, sanitize(authorized[ref.fileId].fields) + Pick(ref.fields, PER_MESSAGE_FIELDS))]
    else if preserveDisplayOnly && ref.fileId == "" && DisplayFields(ref) != map[] then
      [Ref("", DisplayFields(ref))]
    else
      []
  }

  function RehydratedAll(refs: seq<Ref>, authorized: map<string, File>, sanitize: Fields -> Fields,
                         preserveDisplayOnly: bool): seq<Ref> {
    if refs == [] then []
    else RehydratedAll(refs[..|refs| - 1], authorized, sanitize, preserveDisplayOnly)
         + Rehydrated(refs[|refs| - 1], authorized, sanitize, preserveDisplayOnly)
  }

  function NoneIfEmpty(refs: seq<Ref>): Option<seq<Ref>> {
    if refs == [] then None else Some(refs)
  }

  method RehydrateMessageFileRefs(refs: Option<seq<Ref>>, authorized: map<string, File>,
                                  sanitize: Fields -> Fields, preserveDisplayOnly: bool)
    returns (files: Option<seq<Ref>>)
    ensures files == if refs.None? then None
                     else NoneIfEmpty(RehydratedAll(refs.value, authorized, sanitize, preserveDisplayOnly))
  {
    if refs.None? {
      return None;
    }
    var list := refs.value;
    var out: seq<Ref> := [];
    for i := 0 to |list|
      invariant out == RehydratedAll(list[..i], authorized, sanitize, preserveDisplayOnly)
    {
      assert list[..i + 1][..i] == list[..i];
      var ref := list[i];
      if ref.fileId in authorized {
        out := out + [Ref(ref.fileId, sanitize(authorized[ref.fileId].fields) + Pick(ref.fields, PER_MESSAGE_FIELDS))];
        continue;
      }
      if preserveDisplayOnly && ref.fileId == "" {
        var shown := DisplayFields(ref);
        if shown != map[] {
          out := out + [Ref("", shown)];
        }
      }
    }
    assert list[..|list|] == list;
    files := if |out| > 0 then Some(out) else None;
  }

  /** The file ids of a list of references, in order. */
  function IdsOf(refs: seq<Ref>): seq<string> {
    seq(|refs|, i requires 0 <= i < |refs| => refs[i].fileId)
  }

  function Restrict(ids: seq<string>, keep: set<string>): seq<string> {
    if ids == [] then []
    else Restrict(ids[..|ids| - 1], keep) + (if ids[|ids| - 1] in keep then [ids[|ids| - 1]] else [])
  }

  /** A rehydrated file list names exactly the authorized references, in their order, repeats included. */
  lemma {:induction false} RehydrationKeepsOrder(refs: seq<Ref>, authorized: map<string, File>,
                                                 sanitize: Fields -> Fields)
    ensures IdsOf(RehydratedAll(refs, authorized, sanitize, false)) == Restrict(IdsOf(refs), authorized.Keys)
  {
    if refs == [] {
    } else {
      var n := |refs| - 1;
      RehydrationKeepsOrder(refs[..n], authorized, sanitize);
      assert IdsOf(refs)[..n] == IdsOf(refs[..n]);
      var before, last := RehydratedAll(refs[..n], authorized, sanitize, false),
        Rehydrated(refs[n], authorized, sanitize, false);
      assert IdsOf(before + last) == IdsOf(before) + IdsOf(last);
    }
  }

  /** Nothing a reference claims about a file survives except where it was attached. */
  lemma {:induction false} RehydrationTrustsOnlyTheStore(refs: seq<Ref>, authorized: map<string, File>,
                                                         sanitize: Fields -> Fields, preserve: bool, out: Ref)
    requires out in RehydratedAll(refs, authorized, sanitize, preserve)
    ensures out.fileId in authorized ==>
              exists ref :: ref in refs && ref.fileId == out.fileId
                && out.fields == sanitize(authorized[out.fileId].fields) + Pick(ref.fields, PER_MESSAGE_FIELDS)
    ensures out.fileId !in authorized ==>
              preserve && out.fileId == "" && out.fields.Keys <= DISPLAY_FIELDS + TOOL_KEYS + {"type"}
  {
    var n := |refs| - 1;
    if out in Rehydrated(refs[n], authorized, sanitize, preserve) {
      assert refs[n] in refs;
    } else {
      RehydrationTrustsOnlyTheStore(refs[..n], authorized, sanitize, preserve, out);
      assert forall ref :: ref in refs[..n] ==> ref in refs;
    }
  }

  // ---- assigning each file to one message

  /** Ids a message brings into context: its authorized references not seen before, each once. */
  function Claim(ids: seq<string>, seen: set<string>, authorized: set<string>): seq<string> {
    if ids == [] then []
    else
      var claimed := Claim(ids[..|ids| - 1], seen, authorized);
      var id := ids[|ids| - 1];
      if id == "" || id in seen || id in claimed || id !in authorized then claimed else claimed + [id]
  }

  function Union(contexts: seq<seq<string>>): set<string> {
    set i, id | 0 <= i < |contexts| && id in contexts[i] :: id
  }

  /** The ids each message claims, given the ids its `files` list names. */
  function Contexts(lists: seq<seq<string>>, seen: set<string>, authorized: set<string>): (r: seq<seq<string>>)
    ensures |r| == |lists|
  {
    if lists == [] then []
    else
      var n := |lists| - 1;
      var before := Contexts(lists[..n], seen, authorized);
      before + [Claim(lists[n], seen + Union(before), authorized)]
  }

  lemma {:induction false} ClaimExactly(ids: seq<string>, seen: set<string>, authorized: set<string>)
    ensures var r := Claim(ids, seen, authorized);
            && (forall id :: id in r <==> id in ids && id != "" && id !in seen && id in authorized)
            && (forall j, k :: 0 <= j < k < |r| ==> r[j] != r[k])
  {
    if ids == [] {
    } else {
      var n := |ids| - 1;
      ClaimExactly(ids[..n], seen, authorized);
      assert forall id :: id in ids <==> id in ids[..n] || id == ids[n];
    }
  }

  /** Message `i` is the first whose list names the id. */
  ghost predicate FirstNaming(lists: seq<seq<string>>, i: nat, id: string) {
    i < |lists| && id in lists[i] && forall j :: 0 <= j < i ==> id !in lists[j]
  }

  /**
   A file enters the context of a message exactly when the owner may see it, it is not already
   attached to this turn, and that message is the first to name it; and it enters it once.
   */
  lemma {:induction false} EachFileGoesToItsFirstMessage(lists: seq<seq<string>>, attached: set<string>,
                                                         authorized: set<string>, i: nat)
    requires i < |lists|
    ensures var r := Contexts(lists, attached, authorized);
            && (forall id :: id in r[i] <==>
                  id != "" && id in authorized && id !in attached && FirstNaming(lists, i, id))
            && (forall j, k :: 0 <= j < k < |r[i]| ==> r[i][j] != r[i][k])
    decreases |lists|
  {
    var n := |lists| - 1;
    var before := Contexts(lists[..n], attached, authorized);
    if i < n {
      EachFileGoesToItsFirstMessage(lists[..n], attached, authorized, i);
      assert forall id :: FirstNaming(lists[..n], i, id) <==> FirstNaming(lists, i, id);
    } else {
      ClaimExactly(lists[n], attached + Union(before), authorized);
      forall id | id != "" && id in authorized && id !in attached
        ensures id in Union(before) <==> exists j :: 0 <= j < n && id in lists[j]
      {
        SeenIffNamed(lists[..n], attached, authorized, id);
        if j :| 0 <= j < n && id in lists[j] {
          assert id in lists[..n][j];
        }
      }
    }
  }

  lemma {:induction false} SeenIffNamed(lists: seq<seq<string>>, attached: set<string>, authorized: set<string>,
                                        id: string)
    requires id != "" && id in authorized && id !in attached
    ensures id in Union(Contexts(lists, attached, authorized)) <==> exists j :: 0 <= j < |lists| && id in lists[j]
  {
    if lists == [] {
    } else {
      var n := |lists| - 1;
      var before := Contexts(lists[..n], attached, authorized);
      var all := Contexts(lists, attached, authorized);
      SeenIffNamed(lists[..n], attached, authorized, id);
      ClaimExactly(lists[n], attached + Union(before), authorized);
      assert id in Union(all) <==> id in Union(before) || id in all[n] by {
        assert forall j :: 0 <= j < n ==> all[j] == before[j];
      }
      if j :| 0 <= j < |lists| && id in lists[j] {
        assert j < n ==> id in lists[..n][j];
      }
    }
  }

  lemma {:induction false} FirstIndex(lists: seq<seq<string>>, id: string, j: nat) returns (i: nat)
    requires j < |lists| && id in lists[j]
    ensures FirstNaming(lists, i, id)
  {
    if k :| 0 <= k < j && id in lists[k] {
      i := FirstIndex(lists, id, k);
    } else {
      i := j;
    }
  }

  // ---- the client

  /** The stored files with the given ids. */
  function FilesFor(ids: seq<string>, authorized: map<string, File>): seq<File> {
    if ids == [] then []
    else FilesFor(ids[..|ids| - 1], authorized)
         + (if ids[|ids| - 1] in authorized then [authorized[ids[|ids| - 1]]] else [])
  }

  /** What a message holds: its file lists, the references inside its steer parts, and this turn's context files. */
  datatype Held = Held(files: Option<seq<Ref>>, attachments: Option<seq<Ref>>, steerFiles: seq<Ref>,
                       context: seq<File>) {

    function Refs(): seq<Ref> {
      (if files.Some? then files.value else []) + (if attachments.Some? then attachments.value else []) + steerFiles
    }

    /** The ids named by the `files` list. */
    function Named(): seq<string> {
      if files.Some? then IdsOf(files.value) else []
    }
  }

  /** What a message ends up holding, given what it held before and the ids it claimed. */
  function After(was: Held, claimed: seq<string>, authorized: map<string, File>, sanitize: Fields -> Fields): Held {
    if was.files.None? && was.attachments.None? then was
    else Held(
           if was.files.None? then None else NoneIfEmpty(RehydratedAll(was.files.value, authorized, sanitize, false)),
           if was.attachments.None? then None
           else NoneIfEmpty(RehydratedAll(was.attachments.value, authorized, sanitize, true)),
           was.steerFiles,
           FilesFor(claimed, authorized))
  }

  class Message {
    const messageId: string
    /** References inside steer parts of the content; collected, never rewritten. */
    const steerFiles: seq<Ref>
    var files: Option<seq<Ref>>
    var attachments: Option<seq<Ref>>
    /** The files whose text and media were added to the message for this turn. */
    var fileContext: seq<File>

    constructor (messageId: string, steerFiles: seq<Ref>, files: Option<seq<Ref>>, attachments: Option<seq<Ref>>)
      ensures this.messageId == messageId && this.steerFiles == steerFiles
      ensures this.files == files && this.attachments == attachments && fileContext == []
    {
      this.messageId, this.steerFiles := messageId, steerFiles;
      this.files, this.attachments, this.fileContext := files, attachments, [];
    }

    function Holds(): Held
      reads this
    {
      Held(files, attachments, steerFiles, fileContext)
    }
  }

  function Snapshot(messages: seq<Message>): seq<Held>
    reads messages
  {
    seq(|messages|, i requires 0 <= i < |messages| reads messages => messages[i].Holds())
  }

  lemma {:induction false} AllFound(ids: seq<string>, authorized: map<string, File>)
    requires forall id :: id in ids ==> id in authorized
    ensures |FilesFor(ids, authorized)| == |ids|
    ensures forall k :: 0 <= k < |ids| ==> FilesFor(ids, authorized)[k] == authorized[ids[k]]
  {
    if ids != [] {
      AllFound(ids[..|ids| - 1], authorized);
    }
  }

  function NamedLists(held: seq<Held>): seq<seq<string>> {
    seq(|held|, i requires 0 <= i < |held| => held[i].Named())
  }

  function RefIds(refs: seq<Ref>): set<string> {
    if refs == [] then {}
    else
      var id := refs[|refs| - 1].fileId;
      RefIds(refs[..|refs| - 1]) + (if id == "" then {} else {id})
  }

  /** Every file id the messages refer to, whether in `files`, `attachments` or a steer part. */
  function ReferencedIds(held: seq<Held>): set<string> {
    if held == [] then {} else ReferencedIds(held[..|held| - 1]) + RefIds(held[|held| - 1].Refs())
  }

  lemma {:induction false} RefIdsExactly(refs: seq<Ref>, id: string)
    ensures id in RefIds(refs) <==> id != "" && exists k :: 0 <= k < |refs| && refs[k].fileId == id
  {
    if refs == [] {
    } else {
      var n := |refs| - 1;
      RefIdsExactly(refs[..n], id);
      if k :| 0 <= k < |refs| && refs[k].fileId == id {
        assert k < n ==> refs[..n][k] == refs[k];
      }
    }
  }

  lemma {:induction false} NamedIdsAreReferenced(held: seq<Held>, i: nat, id: string)
    requires i < |held| && id in held[i].Named() && id != ""
    ensures id in ReferencedIds(held)
  {
    var n := |held| - 1;
    if i < n {
      NamedIdsAreReferenced(held[..n], i, id);
    } else {
      NamedIsReferenced(held[i], id);
    }
  }

  lemma NamedIsReferenced(message: Held, id: string)
    requires id in message.Named() && id != ""
    ensures id in RefIds(message.Refs())
  {
    var k :| 0 <= k < |message.Named()| && message.Named()[k] == id;
    assert message.Refs()[k].fileId == id;
    RefIdsExactly(message.Refs(), id);
  }

  method CollectHistoricalFileIds(messages: seq<Message>) returns (ids: set<string>)
    ensures ids == ReferencedIds(Snapshot(messages))
  {
    ids := {};
    ghost var held := Snapshot(messages);
    for i := 0 to |messages|
      invariant ids == ReferencedIds(held[..i])
    {
      var refs := messages[i].Holds().Refs();
      for k := 0 to |refs|
        invariant ids == ReferencedIds(held[..i]) + RefIds(refs[..k])
      {
        TakeStep(refs, k);
        if refs[k].fileId != "" {
          ids := ids + {refs[k].fileId};
        }
      }
      TakeAll(refs);
      TakeStep(held, i);
    }
    TakeAll(held);
  }

  /** The context files recorded per message id, later messages last. */
  function RecordContexts(record: map<string, seq<File>>, messageIds: seq<string>, contexts: seq<seq<string>>,
                          authorized: map<string, File>): map<string, seq<File>>
    requires |messageIds| == |contexts|
  {
    if contexts == [] then record
    else
      var n := |contexts| - 1;
      var before := RecordContexts(record, messageIds[..n], contexts[..n], authorized);
      if contexts[n] == [] then before else before[messageIds[n] := FilesFor(contexts[n], authorized)]
  }

  /** With distinct message ids, the record holds for each message exactly the context it claimed. */
  lemma {:induction false} RecordHoldsEachContext(messageIds: seq<string>, contexts: seq<seq<string>>,
                                                  authorized: map<string, File>, i: nat)
    requires |messageIds| == |contexts| && i < |contexts|
    requires forall j, k :: 0 <= j < k < |messageIds| ==> messageIds[j] != messageIds[k]
    ensures var record := RecordContexts(map[], messageIds, contexts, authorized);
            && (messageIds[i] in record <==> contexts[i] != [])
            && (contexts[i] != [] ==> record[messageIds[i]] == FilesFor(contexts[i], authorized))
  {
    var n := |contexts| - 1;
    if i < n {
      RecordHoldsEachContext(messageIds[..n], contexts[..n], authorized, i);
    } else {
      RecordedIdsAreMessages(messageIds[..n], contexts[..n], authorized);
    }
  }

  lemma {:induction false} RecordedIdsAreMessages(messageIds: seq<string>, contexts: seq<seq<string>>,
                                                  authorized: map<string, File>)
    requires |messageIds| == |contexts|
    ensures forall k :: k in RecordContexts(map[], messageIds, contexts, authorized) ==> k in messageIds
  {
    if contexts != [] {
      var n := |contexts| - 1;
      RecordedIdsAreMessages(messageIds[..n], contexts[..n], authorized);
      assert forall k :: k in messageIds[..n] ==> k in messageIds;
    }
  }

  lemma SnapshotIs(messages: seq<Message>, held: seq<Held>)
    requires |held| == |messages| && forall j :: 0 <= j < |messages| ==> messages[j].Holds() == held[j]
    ensures Snapshot(messages) == held
  {
  }

  /** Every message of the conversation after the turn. */
  function AfterAll(was: seq<Held>, contexts: seq<seq<string>>, authorized: map<string, File>,
                    sanitize: Fields -> Fields): seq<Held>
    requires |was| == |contexts|
  {
    seq(|was|, i requires 0 <= i < |was| => After(was[i], contexts[i], authorized, sanitize))
  }

  function MessageIds(messages: seq<Message>): seq<string> {
    seq(|messages|, i requires 0 <= i < |messages| => messages[i].messageId)
  }

  /** Exactly the stored files the owner may see among the referenced ids, under their own ids. */
  ghost predicate OwnersFiles(authorized: map<string, File>, db: seq<File>, ids: set<string>, user: Option<User>) {
    && (forall id :: id in authorized ==>
          id != "" && authorized[id].fileId == id && authorized[id] in db && user.Some? &&
            Matches(authorized[id], ids, user.value))
    && (forall file :: file in db && user.Some? && file.fileId != "" && Matches(file, ids, user.value) ==>
          file.fileId in authorized)
  }

  /** What the message loop reads: files already attached, the owner's files, and the library's sanitizer. */
  datatype Turn = Turn(attached: set<string>, authorized: map<string, File>, sanitize: Fields -> Fields)

  /** What it has built after some messages: their new state, the ids seen, and the recorded contexts. */
  datatype Progress = Progress(done: seq<Held>, seen: set<string>, record: map<string, seq<File>>)

  function Advance(turn: Turn, p: Progress, next: Held, id: string): Progress {
    if next.files.None? && next.attachments.None? then
      p.(done := p.done + [next])
    else
      var claimed := Claim(next.Named(), p.seen, turn.authorized.Keys);
      Progress(p.done + [After(next, claimed, turn.authorized, turn.sanitize)],
               p.seen + (set c | c in claimed),
               if claimed == [] then p.record else p.record[id := FilesFor(claimed, turn.authorized)])
  }

  function Advanced(turn: Turn, record: map<string, seq<File>>, was: seq<Held>, ids: seq<string>): Progress
    requires |was| == |ids|
  {
    if was == [] then Progress([], turn.attached, record)
    else
      var n := |was| - 1;
      Advance(turn, Advanced(turn, record, was[..n], ids[..n]), was[n], ids[n])
  }

  lemma ContextsSnoc(lists: seq<seq<string>>, last: seq<string>, seen: set<string>, authorized: set<string>)
    ensures var before := Contexts(lists, seen, authorized);
            Contexts(lists + [last], seen, authorized) == before + [Claim(last, seen + Union(before), authorized)]
  {
    assert (lists + [last])[..|lists|] == lists;
  }

  lemma RecordSnoc(record: map<string, seq<File>>, ids: seq<string>, contexts: seq<seq<string>>,
                   authorized: map<string, File>,
                   id: string, claimed: seq<string>)
    requires |ids| == |contexts|
    ensures var before := RecordContexts(record, ids, contexts, authorized);
            RecordContexts(record, ids + [id], contexts + [claimed], authorized) ==
            if claimed == [] then before else before[id := FilesFor(claimed, authorized)]
  {
    assert (ids + [id])[..|ids|] == ids && (contexts + [claimed])[..|contexts|] == contexts;
  }

  /** The same progress, read off the contexts all at once. */
  function AllAtOnce(turn: Turn, record: map<string, seq<File>>, was: seq<Held>, ids: seq<string>): Progress
    requires |was| == |ids|
  {
    var contexts := Contexts(NamedLists(was), turn.attached, turn.authorized.Keys);
    Progress(AfterAll(was, contexts, turn.authorized, turn.sanitize),
             turn.attached + Union(contexts),
             RecordContexts(record, ids, contexts, turn.authorized))
  }

  lemma ClosedStep(turn: Turn, record: map<string, seq<File>>, was: seq<Held>, ids: seq<string>, next: Held, id: string)
    requires |was| == |ids|
    ensures Advance(turn, AllAtOnce(turn, record, was, ids), next, id) ==
              AllAtOnce(turn, record, was + [next], ids + [id])
  {
    var contexts := Contexts(NamedLists(was), turn.attached, turn.authorized.Keys);
    var claimed := Claim(next.Named(), turn.attached + Union(contexts), turn.authorized.Keys);
    assert NamedLists(was + [next]) == NamedLists(was) + [next.Named()];
    ContextsSnoc(NamedLists(was), next.Named(), turn.attached, turn.authorized.Keys);
    AfterAllStep(was, next, contexts, claimed, turn.authorized, turn.sanitize);
    UnionStep(contexts, claimed);
    RecordSnoc(record, ids, contexts, turn.authorized, id, claimed);
    assert turn.attached + Union(contexts) + (set c | c in claimed) == turn.attached + Union(contexts + [claimed]);
    if next.files.None? && next.attachments.None? {
      assert claimed == [];
    }
  }

  /** The loop's running state in closed form. */
  lemma AdvancedSnoc(turn: Turn, record: map<string, seq<File>>, was: seq<Held>, ids: seq<string>, last: Held,
                     id: string)
    requires |was| == |ids|
    ensures Advanced(turn, record, was + [last], ids + [id]) ==
              Advance(turn, Advanced(turn, record, was, ids), last, id)
  {
    assert (was + [last])[..|was|] == was && (ids + [id])[..|ids|] == ids;
  }

  lemma AdvancedTakes(turn: Turn, record: map<string, seq<File>>, was: seq<Held>, ids: seq<string>, i: nat)
    requires i < |was| == |ids|
    ensures Advanced(turn, record, was[..i + 1], ids[..i + 1]) ==
            Advance(turn, Advanced(turn, record, was[..i], ids[..i]), was[i], ids[i])
  {
    TakeStep(was, i);
    TakeStep(ids, i);
  }

  lemma NothingAtOnce(turn: Turn, record: map<string, seq<File>>)
    ensures AllAtOnce(turn, record, [], []) == Progress([], turn.attached, record)
  {
    assert NamedLists([]) == [];
    assert Union([]) == {};
  }

  lemma {:induction false} AdvancedIs(turn: Turn, record: map<string, seq<File>>, was: seq<Held>, ids: seq<string>)
    requires |was| == |ids|
    ensures Advanced(turn, record, was, ids) == AllAtOnce(turn, record, was, ids)
  {
    if was == [] {
      NothingAtOnce(turn, record);
    } else {
      var n := |was| - 1;
      var init, others := was[..n], ids[..n];
      assert was == init + [was[n]] && ids == others + [ids[n]];
      AdvancedIs(turn, record, init, others);
      AdvancedSnoc(turn, record, init, others, was[n], ids[n]);
      ClosedStep(turn, record, init, others, was[n], ids[n]);
    }
  }

  class Client {
    const resendFiles: bool
    /** Ids attached to the current turn; empty while attachments are still a promise. */
    const attachments: set<string>
    const user: Option<User>
    const sanitize: Fields -> Fields
    var messageFileMap: map<string, seq<File>>
    var authorizedHistoricalFiles: map<string, File>

    constructor (resendFiles: bool, attachments: set<string>, user: Option<User>, sanitize: Fields -> Fields)
      ensures this.resendFiles == resendFiles && this.attachments == attachments
      ensures this.user == user && this.sanitize == sanitize
      ensures messageFileMap == map[] && authorizedHistoricalFiles == map[]
    {
      this.resendFiles, this.attachments, this.user, this.sanitize := resendFiles, attachments, user, sanitize;
      messageFileMap, authorizedHistoricalFiles := map[], map[];
    }

    /** Looks the referenced ids up under the owner filter; no user or no ids means no lookup. */
    method Authorize(ids: set<string>, db: seq<File>) returns (authorized: map<string, File>)
      ensures OwnersFiles(authorized, db, ids, user)
    {
      authorized := map[];
      if user.Some? && ids != {} {
        var files := GetFiles(db, ids, user.value);
        for i := 0 to |files|
          invariant forall id :: id in authorized <==> id != "" && exists k :: 0 <= k < i && files[k].fileId == id
          invariant forall id :: id in authorized ==> authorized[id].fileId == id && authorized[id] in files
        {
          if files[i].fileId != "" {
            authorized := authorized[files[i].fileId := files[i]];
          }
        }
        forall file | file in db
          ensures file in files <==> Matches(file, ids, user.value)
        {
          GetFilesExactly(db, ids, user.value, file);
        }
        forall file | file in files
          ensures file in db && Matches(file, ids, user.value)
        {
          GetFilesExactly(db, ids, user.value, file);
        }
      }
    }

    /** The files a message brings into the context: first references to files the owner may see. */
    method ClaimContext(refs: seq<Ref>, seen: set<string>, authorized: map<string, File>)
      returns (contextSeen: set<string>, contextFiles: seq<File>)
      ensures var claimed := Claim(IdsOf(refs), seen, authorized.Keys);
              && contextSeen == seen + (set id | id in claimed)
              && contextFiles == FilesFor(claimed, authorized)
    {
      contextSeen, contextFiles := seen, [];
      ghost var named := IdsOf(refs);
      ClaimExactly(named, seen, authorized.Keys);
      for i := 0 to |refs|
        invariant contextSeen == seen + set id | id in Claim(named[..i], seen, authorized.Keys)
        invariant contextFiles == FilesFor(Claim(named[..i], seen, authorized.Keys), authorized)
      {
        TakeStep(named, i);
        var id := refs[i].fileId;
        if id == "" || id in contextSeen {
          continue;
        }
        if id in authorized {
          contextFiles := contextFiles + [authorized[id]];
          contextSeen := contextSeen + {id};
        }
      }
      TakeAll(named);
    }

    method ProcessMessage(message: Message, seen: set<string>,
                          authorized: map<string, File>) returns (contextSeen: set<string>)
      requires "" !in authorized
      modifies message, `messageFileMap
      requires message.files.Some? || message.attachments.Some?
      ensures var claimed := Claim(old(message.Holds()).Named(), seen, authorized.Keys);
              && contextSeen == seen + (set id | id in claimed)
              && message.Holds() == After(old(message.Holds()), claimed, authorized, sanitize)
              && messageFileMap == if claimed == [] then old(messageFileMap)
                                   else old(messageFileMap)[message.messageId := FilesFor(claimed, authorized)]
    {
      ghost var named := message.Holds().Named();
      var contextFiles;
      contextSeen, contextFiles :=
        ClaimContext(if message.files.Some? then message.files.value else [], seen, authorized);
      message.files := RehydrateMessageFileRefs(message.files, authorized, sanitize, false);
      message.attachments := RehydrateMessageFileRefs(message.attachments, authorized, sanitize, true);
      message.fileContext := [];
      ClaimExactly(named, seen, authorized.Keys);
      AllFound(Claim(named, seen, authorized.Keys), authorized);
      if |contextFiles| == 0 {
        return;
      }
      message.fileContext := contextFiles;
      messageFileMap := messageFileMap[message.messageId := contextFiles];
    }

    /** One message of the loop; one with neither list is passed over. */
    method ProcessOne(message: Message, seen: set<string>, authorized: map<string, File>, ghost done: seq<Held>)
      returns (contextSeen: set<string>)
      requires "" !in authorized
      modifies message, `messageFileMap
      ensures Progress(done + [message.Holds()], contextSeen, messageFileMap) ==
              Advance(Turn(attachments, authorized, sanitize), Progress(done, seen, old(messageFileMap)),
                      old(message.Holds()), message.messageId)
    {
      if message.files.None? && message.attachments.None? {
        return seen;
      }
      contextSeen := ProcessMessage(message, seen, authorized);
    }

    /** The message loop of the turn: `contextSeen` starts with the files already attached. */
    method ProcessEach(messages: seq<Message>, authorized: map<string, File>) returns (contextSeen: set<string>)
      requires forall j, k :: 0 <= j < k < |messages| ==> messages[j] != messages[k]
      requires "" !in authorized
      modifies `messageFileMap, messages
      ensures Progress(Snapshot(messages), contextSeen, messageFileMap) ==
              Advanced(Turn(attachments, authorized, sanitize), old(messageFileMap), old(Snapshot(messages)),
                MessageIds(messages))
    {
      ghost var turn := Turn(attachments, authorized, sanitize);
      ghost var was, ids, record := Snapshot(messages), MessageIds(messages), messageFileMap;
      ghost var done: seq<Held> := [];
      contextSeen := attachments;
      for i := 0 to |messages|
        invariant Progress(done, contextSeen, messageFileMap) == Advanced(turn, record, was[..i], ids[..i])
        invariant |done| == i
        invariant forall j :: i <= j < |messages| ==> messages[j].Holds() == was[j]
        invariant forall j :: 0 <= j < i ==> messages[j].Holds() == done[j]
      {
        AdvancedTakes(turn, record, was, ids, i);
        var message := messages[i];
        assert forall j :: 0 <= j < |messages| && j != i ==> messages[j] != message;
        contextSeen := ProcessOne(message, contextSeen, authorized, done);
        done := done + [message.Holds()];
      }
      TakeAll(was);
      TakeAll(ids);
      SnapshotIs(messages, done);
    }

    method ProcessMessages(messages: seq<Message>, authorized: map<string, File>)
      requires forall j, k :: 0 <= j < k < |messages| ==> messages[j] != messages[k]
      requires "" !in authorized
      modifies `messageFileMap, messages
      ensures var contexts := Contexts(NamedLists(old(Snapshot(messages))), attachments, authorized.Keys);
              && Snapshot(messages) == AfterAll(old(Snapshot(messages)), contexts, authorized, sanitize)
              && messageFileMap == RecordContexts(old(messageFileMap), MessageIds(messages), contexts, authorized)
    {
      ghost var was := Snapshot(messages);
      var contextSeen := ProcessEach(messages, authorized);
      AdvancedIs(Turn(attachments, authorized, sanitize), old(messageFileMap), was, MessageIds(messages));
    }

    method AddPreviousAttachments(messages: seq<Message>, db: seq<File>)
      requires forall j, k :: 0 <= j < k < |messages| ==> messages[j] != messages[k]
      modifies this, messages
      ensures !resendFiles ==> unchanged(this) && unchanged(messages)
      ensures resendFiles ==> OwnersFiles(authorizedHistoricalFiles, db, ReferencedIds(old(Snapshot(messages))), user)
      ensures resendFiles ==>
                var contexts :=
                  Contexts(NamedLists(old(Snapshot(messages))), attachments, authorizedHistoricalFiles.Keys);
                && Snapshot(messages) ==
                     AfterAll(old(Snapshot(messages)), contexts, authorizedHistoricalFiles, sanitize)
                && messageFileMap ==
                     RecordContexts(old(messageFileMap), MessageIds(messages), contexts, authorizedHistoricalFiles)
    {
      if !resendFiles {
        return;
      }
      var referenced := CollectHistoricalFileIds(messages);
      authorizedHistoricalFiles := Authorize(referenced, db);
      ProcessMessages(messages, authorizedHistoricalFiles);
    }
  }

  lemma AfterAllStep(was: seq<Held>, last: Held, contexts: seq<seq<string>>, claimed: seq<string>,
                     authorized: map<string, File>, sanitize: Fields -> Fields)
    requires |was| == |contexts|
    ensures AfterAll(was + [last], contexts + [claimed], authorized, sanitize)
         == AfterAll(was, contexts, authorized, sanitize) + [After(last, claimed, authorized, sanitize)]
  {
  }

  lemma UnionStep(contexts: seq<seq<string>>, claimed: seq<string>)
    ensures Union(contexts + [claimed]) == Union(contexts) + set id | id in claimed
  {
    var all := contexts + [claimed];
    assert forall i :: 0 <= i < |contexts| ==> all[i] == contexts[i];
    forall id | id in claimed
      ensures id in Union(all)
    {
      assert id in all[|contexts|];
    }
    forall id | id in Union(contexts)
      ensures id in Union(all)
    {
      var i :| 0 <= i < |contexts| && id in contexts[i];
      assert id in all[i];
    }
  }

  // ---- the whole turn

  lemma FilesForHolds(ids: seq<string>, authorized: map<string, File>, id: string)
    requires forall c :: c in authorized ==> authorized[c].fileId == c
    requires id in authorized
    ensures authorized[id] in FilesFor(ids, authorized) <==> id in ids
  {
    if ids != [] {
      FilesForHolds(ids[..|ids| - 1], authorized, id);
      assert id in ids <==> id in ids[..|ids| - 1] || id == ids[|ids| - 1];
    }
  }

  /** The file is in the context of message `i` and of no other message that takes part. */
  ghost predicate OnlyContextWith(after: seq<Held>, was: seq<Held>, file: File, i: nat)
    requires |after| == |was|
  {
    forall k :: 0 <= k < |was| && (was[k].files.Some? || was[k].attachments.Some?) ==>
      (file in after[k].context <==> k == i)
  }

  lemma ContextsHoldClaims(held: seq<Held>, contexts: seq<seq<string>>, authorized: map<string, File>,
                           sanitize: Fields -> Fields, id: string, i: nat)
    requires |contexts| == |held| && id in authorized
    requires forall c :: c in authorized ==> authorized[c].fileId == c
    requires forall k :: 0 <= k < |contexts| ==> (id in contexts[k] <==> k == i)
    ensures OnlyContextWith(AfterAll(held, contexts, authorized, sanitize), held, authorized[id], i)
  {
    forall k | 0 <= k < |held|
      ensures authorized[id] in FilesFor(contexts[k], authorized) <==> k == i
    {
      FilesForHolds(contexts[k], authorized, id);
    }
  }

  /** The only stored file under its id, as far as the user's own are concerned. */
  ghost predicate OnlyOfItsId(db: seq<File>, user: User, file: File) {
    forall f :: f in db && f.fileId == file.fileId && Owned(f, user) ==> f == file
  }

  /**
   The id of a stored file of the user that some message names and that is not already attached stands
   for a stored file of theirs, this one if they have no other under that id; and that file reaches the
   context of exactly one of the processed messages, the first to name the id.
   */
  lemma OwnedFileReachesOneMessage(held: seq<Held>, db: seq<File>, user: User, authorized: map<string, File>,
                                   attached: set<string>, sanitize: Fields -> Fields, file: File, j: nat)
    requires OwnersFiles(authorized, db, ReferencedIds(held), Some(user))
    requires file in db && Owned(file, user)
    requires j < |held| && file.fileId != "" && file.fileId in held[j].Named() && file.fileId !in attached
    ensures file.fileId in authorized && authorized[file.fileId] in db && authorized[file.fileId].fileId == file.fileId
    ensures OnlyOfItsId(db, user, file) ==> authorized[file.fileId] == file
    ensures var lists := NamedLists(held);
            var after := AfterAll(held, Contexts(lists, attached, authorized.Keys), authorized, sanitize);
            exists i {:trigger FirstNaming(lists, i, file.fileId)} ::
              0 <= i < |held| && FirstNaming(lists, i, file.fileId)
              && OnlyContextWith(after, held, authorized[file.fileId], i)
  {
    NamedIdsAreReferenced(held, j, file.fileId);
    assert Matches(file, ReferencedIds(held), user);
    AuthorizedFileReachesOneMessage(held, authorized, attached, sanitize, authorized[file.fileId], j);
  }

  lemma AuthorizedFileReachesOneMessage(held: seq<Held>, authorized: map<string, File>, attached: set<string>,
                                        sanitize: Fields -> Fields, file: File, j: nat)
    requires forall c :: c in authorized ==> authorized[c].fileId == c
    requires file.fileId in authorized && authorized[file.fileId] == file
    requires j < |held| && file.fileId != "" && file.fileId in held[j].Named() && file.fileId !in attached
    ensures var lists := NamedLists(held);
            var after := AfterAll(held, Contexts(lists, attached, authorized.Keys), authorized, sanitize);
            exists i {:trigger FirstNaming(lists, i, file.fileId)} ::
              0 <= i < |held| && FirstNaming(lists, i, file.fileId) && OnlyContextWith(after, held, file, i)
  {
    var id, lists := file.fileId, NamedLists(held);
    assert id in lists[j];
    var contexts := Contexts(lists, attached, authorized.Keys);
    var i := FirstIndex(lists, id, j);
    forall k | 0 <= k < |lists|
      ensures id in contexts[k] <==> k == i
    {
      EachFileGoesToItsFirstMessage(lists, attached, authorized.Keys, k);
    }
    ContextsHoldClaims(held, contexts, authorized, sanitize, id, i);
  }

  /** Nothing but the user's own referenced files ever enters a context. */
  lemma ContextsHoldOnlyOwnedFiles(was: Held, db: seq<File>, referenced: set<string>, user: Option<User>,
                                   authorized: map<string, File>,
                                   claimed: seq<string>, sanitize: Fields -> Fields, file: File)
    requires OwnersFiles(authorized, db, referenced, user)
    requires was.files.Some? || was.attachments.Some?
    requires file in After(was, claimed, authorized, sanitize).context
    ensures user.Some? && file in db && Matches(file, referenced, user.value)
  {
    FilesForAuthorized(claimed, authorized, file);
  }

  lemma {:induction false} FilesForAuthorized(ids: seq<string>, authorized: map<string, File>, file: File)
    requires file in FilesFor(ids, authorized)
    ensures exists id :: id in authorized && authorized[id] == file
  {
    var n := |ids| - 1;
    if file in FilesFor(ids[..n], authorized) {
      FilesForAuthorized(ids[..n], authorized, file);
    }
  }
}
