/**
 Rebuilding one conversation thread from a flat list of messages
 (BaseClient.getMessagesForConversation, findSummaryContentBlock, getSummaryText).
 */
module ThreadWalk {
  import opened Options
  import opened Sequences
  import opened Text

  /** Body of a summary block: the current array form, the string form, or neither (legacy). */
  datatype SummaryBody = Pieces(texts: seq<Field<string>>) | Plain(body: string) | Neither

  datatype Part =
    | SummaryPart(content: SummaryBody, text: Field<string>, tokenCount: Field<int>)
    | TextPart(text: Field<string>)
    | OtherPart(kind: string)

  datatype Message = Message(
    messageId: Field<string>,
    id: Field<string>,
    parentMessageId: Field<string>,
    role: Field<string>,
    content: Option<seq<Part>>,
    summary: Field<string>,
    summaryTokenCount: Field<int>,
    tokenCount: Field<int>)

  const NO_PARENT := "00000000-0000-0000-0000-000000000000"

  // ---- summary blocks

  function Join(texts: seq<Field<string>>): string {
    if texts == [] then "" else OrEmpty(texts[0]) + Join(texts[1..])
  }

  function SummaryText(block: Part): string
    requires block.SummaryPart?
  {
    match block.content
    case Pieces(texts) => Join(texts)
    case Plain(body) => body
    case Neither => OrEmpty(block.text)
  }

  predicate CarriesText(part: Part) {
    part.SummaryPart? && !IsBlank(SummaryText(part))
  }

  /** The last non-blank summary block wins. */
  function SummaryBlock(parts: seq<Part>): (r: Option<Part>)
    ensures r.Some? ==> r.value in parts && CarriesText(r.value)
  {
    if parts == [] then None
    else if CarriesText(parts[|parts| - 1]) then Some(parts[|parts| - 1])
    else SummaryBlock(parts[..|parts| - 1])
  }

  lemma {:induction false} LastNonBlankSummaryWins(parts: seq<Part>, i: nat)
    requires i < |parts|
    ensures SummaryBlock(parts).None? ==> !CarriesText(parts[i])
    ensures CarriesText(parts[i]) && (forall j :: i < j < |parts| ==> !CarriesText(parts[j])) ==>
              SummaryBlock(parts) == Some(parts[i])
    decreases |parts|
  {
    var n := |parts| - 1;
    if i < n {
      LastNonBlankSummaryWins(parts[..n], i);
    }
  }

  method FindSummaryContentBlock(message: Message) returns (lastSummary: Option<Part>)
    ensures lastSummary == if message.content.Some? then SummaryBlock(message.content.value) else None
  {
    if message.content.None? {
      return None;
    }
    var parts := message.content.value;
    lastSummary := None;
    for i := 0 to |parts|
      invariant lastSummary == SummaryBlock(parts[..i])
    {
      assert parts[..i + 1][..i] == parts[..i];
      if CarriesText(parts[i]) {
        lastSummary := Some(parts[i]);
      }
    }
    assert parts[..|parts|] == parts;
  }

  function BlockOf(message: Message): Option<Part> {
    if message.content.Some? then SummaryBlock(message.content.value) else None
  }

  predicate HasSummary(message: Message) {
    BlockOf(message).Some? || OrEmpty(message.summary) != ""
  }

  /** The message as a summarised thread shows it: a system message holding the summary text. */
  function Resolve(message: Message): Message {
    match BlockOf(message)
    case Some(block) =>
      message.(role := Present("system"), content := Some([TextPart(Present(SummaryText(block)))]),
               tokenCount := block.tokenCount)
    case None =>
      if OrEmpty(message.summary) != "" then
        message.(role := Present("system"), content := Some([TextPart(message.summary)]),
                 tokenCount := if message.summaryTokenCount.Present? then message.summaryTokenCount
                   else message.tokenCount)
      else
        message
  }

  // ---- the parent graph

  /** `messageId ?? id`; the empty string stands for an id that can never be looked up. */
  function IdOf(m: Message): string {
    if m.messageId.Present? then m.messageId.value else OrEmpty(m.id)
  }

  /** The id the walk goes to next, empty when the message is a root. */
  function ParentOf(m: Message): string {
    if m.parentMessageId == Present(NO_PARENT) then "" else OrEmpty(m.parentMessageId)
  }

  function Ids(messages: seq<Message>): set<string> {
    set m | m in messages :: IdOf(m)
  }

  /** `messages.find`: the first message with the id. */
  function Find(messages: seq<Message>, id: string): (r: Option<Message>)
    ensures r.Some? ==> r.value in messages && IdOf(r.value) == id
    ensures r.None? ==> id !in Ids(messages)
  {
    if messages == [] then None
    else if IdOf(messages[0]) == id then Some(messages[0])
    else Find(messages[1..], id)
  }

  /** Root-to-leaf walk that never enters a visited id, and stops at a summary when asked to. */
  function Walk(messages: seq<Message>, id: string, visited: set<string>, toSummary: bool): seq<Message>
    decreases |Ids(messages) - visited|
  {
    if id == "" || id in visited then []
    else
      match Find(messages, id)
      case None => []
      case Some(m) =>
        assert Ids(messages) - (visited + {id}) < Ids(messages) - visited by {
          assert id in Ids(messages) - visited;
        }
        ProperSubsetSize(Ids(messages) - (visited + {id}), Ids(messages) - visited);
        (if toSummary && HasSummary(m) then [] else Walk(messages, ParentOf(m), visited + {id}, toSummary)) + [m]
  }

  // ---- the method

  function Process(m: Message, toSummary: bool, mapMethod: Option<Message -> Message>,
                   mapCondition: Option<Message -> bool>): Message {
    var resolved := if toSummary then Resolve(m) else m;
    var shouldMap := mapMethod.Some? && (mapCondition.Some? ==> mapCondition.value(resolved));
    if shouldMap then mapMethod.value(resolved) else resolved
  }

  function ProcessAll(path: seq<Message>, toSummary: bool, mapMethod: Option<Message -> Message>,
                      mapCondition: Option<Message -> bool>): seq<Message> {
    seq(|path|, i requires 0 <= i < |path| => Process(path[i], toSummary, mapMethod, mapCondition))
  }

  lemma WalkUnfold(messages: seq<Message>, id: string, visited: set<string>, toSummary: bool, m: Message)
    requires id != "" && id !in visited && Find(messages, id) == Some(m)
    ensures Walk(messages, id, visited, toSummary)
         == (if toSummary && HasSummary(m) then [] else Walk(messages, ParentOf(m), visited + {id}, toSummary)) + [m]
    ensures id in Ids(messages) && |Ids(messages) - (visited + {id})| < |Ids(messages) - visited|
  {
    assert id in Ids(messages) - visited;
    ProperSubsetSize(Ids(messages) - (visited + {id}), Ids(messages) - visited);
  }

  lemma ProcessSnoc(older: seq<Message>, m: Message, toSummary: bool,
                    mapMethod: Option<Message -> Message>, mapCondition: Option<Message -> bool>)
    ensures ProcessAll(older + [m], toSummary, mapMethod, mapCondition)
         == ProcessAll(older, toSummary, mapMethod, mapCondition) + [Process(m, toSummary, mapMethod, mapCondition)]
  {
  }

  lemma WalkStep(messages: seq<Message>, id: string, visited: set<string>, toSummary: bool, m: Message,
                 mapMethod: Option<Message -> Message>, mapCondition: Option<Message -> bool>)
    requires id != "" && id !in visited && Find(messages, id) == Some(m)
    ensures ProcessAll(Walk(messages, id, visited, toSummary), toSummary, mapMethod, mapCondition)
         == (if toSummary && HasSummary(m) then []
             else ProcessAll(Walk(messages, ParentOf(m), visited + {id}, toSummary), toSummary, mapMethod,
               mapCondition))
            + [Process(m, toSummary, mapMethod, mapCondition)]
    ensures |Ids(messages) - (visited + {id})| < |Ids(messages) - visited|
  {
    WalkUnfold(messages, id, visited, toSummary, m);
    var older := if toSummary && HasSummary(m) then [] else Walk(messages, ParentOf(m), visited + {id}, toSummary);
    ProcessSnoc(older, m, toSummary, mapMethod, mapCondition);
  }

  lemma MoveLast<T>(ahead: seq<T>, x: T, ordered: seq<T>)
    ensures (ahead + [x]) + Reverse(ordered) == ahead + Reverse(ordered + [x])
  {
    ReverseAppend(ordered, x);
    assert (ahead + [x]) + Reverse(ordered) == ahead + ([x] + Reverse(ordered));
  }

  lemma WalkStops(messages: seq<Message>, id: string, visited: set<string>, toSummary: bool,
                  mapMethod: Option<Message -> Message>, mapCondition: Option<Message -> bool>)
    requires id == "" || id in visited || Find(messages, id).None?
    ensures ProcessAll(Walk(messages, id, visited, toSummary), toSummary, mapMethod, mapCondition) == []
  {
  }

  method GetMessagesForConversation(messages: seq<Message>, parentMessageId: Field<string>,
                                    mapMethod: Option<Message -> Message>, mapCondition: Option<Message -> bool>,
                                    summary: bool)
    returns (ordered: seq<Message>)
    ensures ordered ==
              ProcessAll(Walk(messages, OrEmpty(parentMessageId), {}, summary), summary, mapMethod, mapCondition)
  {
    ordered := [];
    var current := OrEmpty(parentMessageId);
    if messages == [] {
      WalkStops(messages, current, {}, summary, mapMethod, mapCondition);
      return;
    }
    var visited: set<string> := {};
    ghost var ahead := ProcessAll(Walk(messages, current, {}, summary), summary, mapMethod, mapCondition);
    ghost var full := ahead;
    while current != ""
      invariant ahead == ProcessAll(Walk(messages, current, visited, summary), summary, mapMethod, mapCondition)
      invariant full == ahead + Reverse(ordered)
      decreases |Ids(messages) - visited|
    {
      if current in visited {
        break;
      }
      var message := Find(messages, current);
      if message.None? {
        break;
      }
      WalkStep(messages, current, visited, summary, message.value, mapMethod, mapCondition);
      visited := visited + {current};
      var processed, hasSummary := ProcessMessage(message.value, summary, mapMethod, mapCondition);
      current := ParentOf(message.value);
      ghost var older := if hasSummary then []
        else ProcessAll(Walk(messages, current, visited, summary), summary, mapMethod, mapCondition);
      assert ahead == older + [processed];
      MoveLast(older, processed, ordered);
      ordered, ahead := ordered + [processed], older;
      if hasSummary {
        ordered := Reverse(ordered);
        return;
      }
    }
    WalkStops(messages, current, visited, summary, mapMethod, mapCondition);
    ordered := Reverse(ordered);
  }

  method ProcessMessage(message: Message, summary: bool,
                        mapMethod: Option<Message -> Message>, mapCondition: Option<Message -> bool>)
    returns (processed: Message, hasSummary: bool)
    ensures processed == Process(message, summary, mapMethod, mapCondition) &&
              hasSummary == (summary && HasSummary(message))
  {
    var resolved;
    resolved, hasSummary := message, false;
    if summary {
      resolved, hasSummary := ResolveSummary(message);
    }
    var shouldMap := mapMethod.Some? && (mapCondition.Some? ==> mapCondition.value(resolved));
    processed := if shouldMap then mapMethod.value(resolved) else resolved;
  }

  method ResolveSummary(message: Message) returns (resolved: Message, hasSummary: bool)
    ensures resolved == Resolve(message) && hasSummary == HasSummary(message)
  {
    resolved, hasSummary := message, false;
    var block := FindSummaryContentBlock(message);
    if block.Some? {
      resolved := message.(role := Present("system"), content := Some([TextPart(Present(SummaryText(block.value)))]),
                           tokenCount := block.value.tokenCount);
      hasSummary := true;
    } else if OrEmpty(message.summary) != "" {
      resolved := message.(role := Present("system"), content := Some([TextPart(message.summary)]),
                           tokenCount := if message.summaryTokenCount.Present? then message.summaryTokenCount
                             else message.tokenCount);
      hasSummary := true;
    }
  }

  // ---- what a thread is, independently of how it is walked

  function PathIds(path: seq<Message>): set<string> {
    set m | m in path :: IdOf(m)
  }

  /** `path` runs root first along parent links, never repeats an id, and uses the stored messages. */
  ghost predicate IsPath(messages: seq<Message>, path: seq<Message>) {
    && (forall k :: 0 <= k < |path| ==> IdOf(path[k]) != "" && Find(messages, IdOf(path[k])) == Some(path[k]))
    && (forall k :: 0 <= k < |path| - 1 ==> ParentOf(path[k + 1]) == IdOf(path[k]))
    && (forall j, k :: 0 <= j < k < |path| ==> IdOf(path[j]) != IdOf(path[k]))
  }

  /** Nothing more can be put in front: the parent is absent, not stored, or already there. */
  ghost predicate CannotGrow(messages: seq<Message>, next: string, taken: set<string>) {
    next == "" || Find(messages, next).None? || next in taken
  }

  /** The one path that ends at the requested message and goes back as far as it can. */
  ghost predicate IsThread(messages: seq<Message>, id: string, path: seq<Message>) {
    && IsPath(messages, path)
    && (path != [] ==> IdOf(path[|path| - 1]) == id && CannotGrow(messages, ParentOf(path[0]), PathIds(path)))
    && (path == [] ==> CannotGrow(messages, id, {}))
  }

  ghost predicate IsThreadAvoiding(messages: seq<Message>, id: string, path: seq<Message>, visited: set<string>) {
    && IsPath(messages, path)
    && PathIds(path) !! visited
    && (path != [] ==> IdOf(path[|path| - 1]) == id && CannotGrow(messages, ParentOf(path[0]), PathIds(path) + visited))
    && (path == [] ==> CannotGrow(messages, id, visited))
  }

  lemma WithLast(messages: seq<Message>, id: string, older: seq<Message>, visited: set<string>, m: Message)
    requires id != "" && id !in visited && Find(messages, id) == Some(m)
    requires IsThreadAvoiding(messages, ParentOf(m), older, visited + {id})
    ensures IsThreadAvoiding(messages, id, older + [m], visited)
  {
    PathIdsGrow(older, m);
    PathGrows(messages, older, m);
    assert PathIds(older) + (visited + {id}) == PathIds(older + [m]) + visited;
  }

  lemma PathIdsGrow(older: seq<Message>, m: Message)
    ensures PathIds(older + [m]) == PathIds(older) + {IdOf(m)}
    ensures forall k :: 0 <= k < |older| ==> IdOf(older[k]) in PathIds(older)
  {
    forall id | id in PathIds(older) + {IdOf(m)}
      ensures id in PathIds(older + [m])
    {
      assert m in older + [m];
      if id in PathIds(older) {
        var x :| x in older && IdOf(x) == id;
        assert x in older + [m];
      }
    }
    assert forall k :: 0 <= k < |older| ==> older[k] in older;
  }

  lemma PathGrows(messages: seq<Message>, older: seq<Message>, m: Message)
    requires IsPath(messages, older) && IdOf(m) != "" && Find(messages, IdOf(m)) == Some(m)
    requires older != [] ==> ParentOf(m) == IdOf(older[|older| - 1])
    requires IdOf(m) !in PathIds(older)
    ensures IsPath(messages, older + [m])
  {
    PathIdsGrow(older, m);
    var p, n := older + [m], |older|;
    forall k | 0 <= k < n
      ensures ParentOf(p[k + 1]) == IdOf(p[k])
    {
      assert k < n - 1 ==> ParentOf(older[k + 1]) == IdOf(older[k]);
    }
    forall j, k | 0 <= j < k <= n
      ensures IdOf(p[j]) != IdOf(p[k])
    {
      assert k < n ==> IdOf(older[j]) != IdOf(older[k]);
    }
  }

  lemma {:induction false} WalkIsThreadAvoiding(messages: seq<Message>, id: string, visited: set<string>)
    ensures IsThreadAvoiding(messages, id, Walk(messages, id, visited, false), visited)
    decreases |Ids(messages) - visited|
  {
    if id == "" || id in visited || Find(messages, id).None? {
    } else {
      var m := Find(messages, id).value;
      WalkUnfold(messages, id, visited, false, m);
      WalkIsThreadAvoiding(messages, ParentOf(m), visited + {id});
      WithLast(messages, id, Walk(messages, ParentOf(m), visited + {id}, false), visited, m);
    }
  }

  /** On any parent graph, cyclic or not, the walk returns the thread of the requested message. */
  lemma WalkIsThread(messages: seq<Message>, id: string)
    ensures IsThread(messages, id, Walk(messages, id, {}, false))
  {
    WalkIsThreadAvoiding(messages, id, {});
  }

  lemma {:induction false} ThreadAvoidingIsUnique(messages: seq<Message>, id: string, p: seq<Message>,
                                                  q: seq<Message>, visited: set<string>)
    requires IsThreadAvoiding(messages, id, p, visited) && IsThreadAvoiding(messages, id, q, visited)
    ensures p == q
    decreases |p|
  {
    if p == [] || q == [] {
      assert p != [] ==> id in PathIds(p);
      assert q != [] ==> id in PathIds(q);
    } else {
      var m := p[|p| - 1];
      assert q[|q| - 1] == m;
      WithoutLast(messages, id, p, visited);
      WithoutLast(messages, id, q, visited);
      ThreadAvoidingIsUnique(messages, ParentOf(m), p[..|p| - 1], q[..|q| - 1], visited + {id});
    }
  }

  lemma WithoutLast(messages: seq<Message>, id: string, p: seq<Message>, visited: set<string>)
    requires p != [] && IsThreadAvoiding(messages, id, p, visited)
    ensures IsThreadAvoiding(messages, ParentOf(p[|p| - 1]), p[..|p| - 1], visited + {id})
  {
    var older, m := p[..|p| - 1], p[|p| - 1];
    assert p == older + [m];
    PathIdsGrow(older, m);
    PathShrinks(messages, p);
    assert PathIds(older) + (visited + {id}) == PathIds(p) + visited;
  }

  lemma PathShrinks(messages: seq<Message>, p: seq<Message>)
    requires p != [] && IsPath(messages, p)
    ensures IsPath(messages, p[..|p| - 1]) && IdOf(p[|p| - 1]) !in PathIds(p[..|p| - 1])
  {
    var older := p[..|p| - 1];
    assert forall k :: 0 <= k < |older| ==> older[k] == p[k];
  }

  /** So a path is the answer exactly when it is the thread. */
  lemma WalkIsTheThread(messages: seq<Message>, id: string, path: seq<Message>)
    ensures path == Walk(messages, id, {}, false) <==> IsThread(messages, id, path)
  {
    WalkIsThread(messages, id);
    if IsThread(messages, id, path) {
      assert IsThreadAvoiding(messages, id, path, {}) by {
        assert PathIds(path) + {} == PathIds(path);
      }
      WalkIsThreadAvoiding(messages, id, {});
      ThreadAvoidingIsUnique(messages, id, path, Walk(messages, id, {}, false), {});
    }
  }

  /** The oldest message of the thread names a later one of the thread as its parent. */
  ghost predicate ClosesOnItself(path: seq<Message>) {
    path != [] && ParentOf(path[0]) in PathIds(path[1..])
  }

  lemma PrefixIsThread(messages: seq<Message>, id: string, path: seq<Message>, k: nat)
    requires IsThread(messages, id, path) && k < |path| && !ClosesOnItself(path)
    ensures IsThread(messages, IdOf(path[k]), path[..k + 1])
  {
    var p := path[..k + 1];
    assert forall i :: 0 <= i < |p| ==> p[i] == path[i];
    if ParentOf(path[0]) in PathIds(path) {
      assert path == [path[0]] + path[1..];
      assert p[0] in p;
    }
  }

  lemma ClosedPathOutgrowsItsRoot(messages: seq<Message>, id: string, path: seq<Message>)
    requires IsThread(messages, id, path) && ClosesOnItself(path)
    ensures !IsThread(messages, IdOf(path[0]), path[..1])
  {
    var m :| m in path[1..] && IdOf(m) == ParentOf(path[0]);
    var j :| 1 <= j < |path| && path[j] == m;
    var own := path[..1];
    assert own[0] == path[0] && PathIds(own) == {IdOf(path[0])};
    assert IdOf(path[0]) != IdOf(path[j]);
    assert Find(messages, IdOf(path[j])) == Some(path[j]);
  }

  // ---- the same condition on the parent links alone

  /** The id a stored message names as its parent; empty where there is nothing to follow. */
  function NextUp(messages: seq<Message>, id: string): string {
    if id == "" || Find(messages, id).None? then "" else ParentOf(Find(messages, id).value)
  }

  function Up(messages: seq<Message>, id: string, n: nat): string
    decreases n
  {
    if n == 0 then id else Up(messages, NextUp(messages, id), n - 1)
  }

  lemma {:induction false} UpAdds(messages: seq<Message>, id: string, m: nat, n: nat)
    ensures Up(messages, id, m + n) == Up(messages, Up(messages, id, m), n)
    decreases m
  {
    if m > 0 {
      UpAdds(messages, NextUp(messages, id), m - 1, n);
    }
  }

  lemma UpOnce(messages: seq<Message>, id: string, n: nat)
    ensures Up(messages, id, n + 1) == NextUp(messages, Up(messages, id, n))
  {
    UpAdds(messages, id, n, 1);
    assert Up(messages, Up(messages, id, n), 1) == Up(messages, NextUp(messages, Up(messages, id, n)), 0);
  }

  /** A stored message that parent links lead back to by way of another message. */
  ghost predicate OnCycle(messages: seq<Message>, id: string) {
    && id != "" && Find(messages, id).Some? && NextUp(messages, id) != id
    && exists c: nat :: c > 0 && Up(messages, id, c) == id
  }

  /** Following parent links leads into a cycle of two or more messages. */
  ghost predicate ReachesCycle(messages: seq<Message>, id: string) {
    exists n: nat :: OnCycle(messages, Up(messages, id, n))
  }

  lemma {:induction false} PathIsUp(messages: seq<Message>, id: string, path: seq<Message>, n: nat)
    requires IsThread(messages, id, path) && n < |path|
    ensures Up(messages, id, n) == IdOf(path[|path| - 1 - n])
  {
    if n > 0 {
      PathIsUp(messages, id, path, n - 1);
      UpOnce(messages, id, n - 1);
      var k := |path| - 1 - n;
      assert ParentOf(path[k + 1]) == IdOf(path[k]);
    }
  }

  /**
   Past the oldest message of a thread that does not close there is nothing stored but, at most, that message
   again.
   */
  lemma {:induction false} BeyondThread(messages: seq<Message>, id: string, path: seq<Message>, n: nat)
    requires IsThread(messages, id, path) && !ClosesOnItself(path) && n >= |path|
    ensures var x := Up(messages, id, n);
            || x == "" || Find(messages, x).None?
            || (path != [] && x == IdOf(path[0]) && NextUp(messages, x) == x)
    decreases n
  {
    if n > |path| {
      BeyondThread(messages, id, path, n - 1);
      UpOnce(messages, id, n - 1);
    } else if path != [] {
      PathIsUp(messages, id, path, n - 1);
      UpOnce(messages, id, n - 1);
      AboveRoot(messages, id, path);
    }
  }

  lemma AboveRoot(messages: seq<Message>, id: string, path: seq<Message>)
    requires IsThread(messages, id, path) && !ClosesOnItself(path) && path != []
    ensures var x := IdOf(path[0]);
            var q := NextUp(messages, x);
            q == "" || Find(messages, q).None? || q == x
  {
    var q := ParentOf(path[0]);
    assert Find(messages, IdOf(path[0])) == Some(path[0]);
    if q in PathIds(path) {
      var m :| m in path && IdOf(m) == q;
      assert path == [path[0]] + path[1..];
    }
  }

  lemma ClosedThreadHasCycle(messages: seq<Message>, id: string, path: seq<Message>)
    requires IsThread(messages, id, path) && ClosesOnItself(path)
    ensures ReachesCycle(messages, id)
  {
    var m :| m in path[1..] && IdOf(m) == ParentOf(path[0]);
    var j :| 1 <= j < |path| && path[j] == m;
    RootIsAbove(messages, id, path, j);
    var x := IdOf(path[0]);
    assert Find(messages, x) == Some(path[0]) && x != IdOf(path[j]);
    LoopIsCycle(messages, x, IdOf(path[j]), j);
    assert OnCycle(messages, Up(messages, id, |path| - 1));
  }

  lemma RootIsAbove(messages: seq<Message>, id: string, path: seq<Message>, j: nat)
    requires IsThread(messages, id, path) && j < |path|
    ensures Up(messages, id, |path| - 1) == IdOf(path[0]) && Up(messages, IdOf(path[j]), j) == IdOf(path[0])
  {
    var last := |path| - 1;
    PathIsUp(messages, id, path, last);
    PathIsUp(messages, id, path, last - j);
    UpAdds(messages, id, last - j, j);
  }

  lemma LoopIsCycle(messages: seq<Message>, x: string, y: string, j: nat)
    requires x != "" && x != y && Find(messages, x).Some? && NextUp(messages, x) == y && Up(messages, y, j) == x
    ensures OnCycle(messages, x)
  {
    assert Up(messages, x, j + 1) == x;
  }

  lemma CycleClosesThread(messages: seq<Message>, id: string, path: seq<Message>, n: nat)
    requires IsThread(messages, id, path) && OnCycle(messages, Up(messages, id, n))
    ensures ClosesOnItself(path)
  {
    var x, last := Up(messages, id, n), |path| - 1;
    var c: nat :| c > 0 && Up(messages, x, c) == x;
    UpAdds(messages, id, n, c);
    if !ClosesOnItself(path) {
      if n >= |path| {
        BeyondThread(messages, id, path, n);
      } else {
        PathIsUp(messages, id, path, n);
        if n + c < |path| {
          PathIsUp(messages, id, path, n + c);
        } else {
          BeyondThread(messages, id, path, n + c);
        }
      }
    }
  }

  /** A thread closes on itself exactly when the parent links lead into a cycle. */
  lemma ThreadClosesIffCycle(messages: seq<Message>, id: string)
    ensures ClosesOnItself(Walk(messages, id, {}, false)) <==> ReachesCycle(messages, id)
  {
    var path := Walk(messages, id, {}, false);
    WalkIsThread(messages, id);
    if ClosesOnItself(path) {
      ClosedThreadHasCycle(messages, id, path);
    }
    if ReachesCycle(messages, id) {
      var n: nat :| OnCycle(messages, Up(messages, id, n));
      CycleClosesThread(messages, id, path, n);
    }
  }

  /**
   The thread of every message in a thread is the part of it up to that message, unless the parent
   links lead into a cycle of two or more messages: then, and only then, the oldest message's own
   thread is longer.
   */
  lemma AncestorThreadsArePrefixes(messages: seq<Message>, id: string)
    ensures var path := Walk(messages, id, {}, false);
            (forall k :: 0 <= k < |path| ==> Walk(messages, IdOf(path[k]), {}, false) == path[..k + 1])
            <==> !ReachesCycle(messages, id)
  {
    var path := Walk(messages, id, {}, false);
    WalkIsThread(messages, id);
    ThreadClosesIffCycle(messages, id);
    if ClosesOnItself(path) {
      ClosedPathOutgrowsItsRoot(messages, id, path);
      WalkIsTheThread(messages, IdOf(path[0]), path[..0 + 1]);
    } else {
      forall k | 0 <= k < |path|
        ensures Walk(messages, IdOf(path[k]), {}, false) == path[..k + 1]
      {
        PrefixIsThread(messages, id, path, k);
        WalkIsTheThread(messages, IdOf(path[k]), path[..k + 1]);
      }
    }
  }

  lemma MutualWalk(messages: seq<Message>, a: Message, b: Message)
    requires Find(messages, IdOf(a)) == Some(a) && Find(messages, IdOf(b)) == Some(b)
    requires IdOf(a) != "" && IdOf(b) != "" && IdOf(a) != IdOf(b) && ParentOf(a) == IdOf(b) && ParentOf(b) == IdOf(a)
    ensures Walk(messages, IdOf(a), {}, false) == [b, a]
  {
    var once, twice := {} + {IdOf(a)}, {} + {IdOf(a)} + {IdOf(b)};
    WalkUnfold(messages, IdOf(a), {}, false, a);
    WalkUnfold(messages, IdOf(b), once, false, b);
    assert Walk(messages, IdOf(a), twice, false) == [];
    assert Walk(messages, IdOf(b), once, false) == [] + [b];
    assert [] + [b] + [a] == [b, a];
  }

  lemma PairFinds(a: Message, b: Message)
    requires IdOf(a) != IdOf(b)
    ensures Find([a, b], IdOf(a)) == Some(a) && Find([a, b], IdOf(b)) == Some(b)
  {
    assert [a, b][1..] == [b] && [b][1..] == [];
    assert Find([b], IdOf(b)) == Some(b);
  }

  /** Two messages that name each other: the older one's own thread is not the part of the thread up to it. */
  lemma MutualParentsBreakPrefixes(a: Message, b: Message)
    requires IdOf(a) != "" && IdOf(b) != "" && IdOf(a) != IdOf(b) && ParentOf(a) == IdOf(b) && ParentOf(b) == IdOf(a)
    ensures var path := Walk([a, b], IdOf(a), {}, false);
            path == [b, a] && Walk([a, b], IdOf(b), {}, false) == [a, b] != path[..1]
  {
    PairFinds(a, b);
    MutualWalk([a, b], a, b);
    MutualWalk([a, b], b, a);
  }

  /** Some measure strictly falls from every stored message to its stored parent. */
  ghost predicate Acyclic(messages: seq<Message>, rank: map<string, nat>) {
    forall id {:trigger Find(messages, id)} :: Find(messages, id).Some? ==>
      var parent := ParentOf(Find(messages, id).value);
      Find(messages, parent).Some? ==> id in rank && parent in rank && rank[parent] < rank[id]
  }

  lemma {:induction false} RankFallsAlongPath(messages: seq<Message>, rank: map<string, nat>,
                                              path: seq<Message>, k: nat)
    requires Acyclic(messages, rank) && IsPath(messages, path)
    requires 0 < k < |path|
    ensures IdOf(path[0]) in rank && IdOf(path[k]) in rank && rank[IdOf(path[0])] < rank[IdOf(path[k])]
  {
    assert Find(messages, IdOf(path[k])) == Some(path[k]);
    assert ParentOf(path[k - 1 + 1]) == IdOf(path[k - 1]);
    assert Find(messages, IdOf(path[k - 1])) == Some(path[k - 1]);
    if k > 1 {
      RankFallsAlongPath(messages, rank, path, k - 1);
    }
  }

  lemma AcyclicThreadsNeverClose(messages: seq<Message>, rank: map<string, nat>, id: string)
    requires Acyclic(messages, rank)
    ensures !ReachesCycle(messages, id)
  {
    AcyclicThreadsStayOpen(messages, rank, id);
    ThreadClosesIffCycle(messages, id);
  }

  lemma AcyclicThreadsStayOpen(messages: seq<Message>, rank: map<string, nat>, id: string)
    requires Acyclic(messages, rank)
    ensures !ClosesOnItself(Walk(messages, id, {}, false))
  {
    var path := Walk(messages, id, {}, false);
    WalkIsThread(messages, id);
    if ClosesOnItself(path) {
      var m :| m in path[1..] && IdOf(m) == ParentOf(path[0]);
      var j :| 0 <= j < |path[1..]| && path[1..][j] == m;
      assert path[j + 1] == m;
      assert Find(messages, IdOf(path[0])) == Some(path[0]);
      assert Find(messages, IdOf(path[j + 1])) == Some(path[j + 1]);
      RankFallsAlongPath(messages, rank, path, j + 1);
    }
  }

  /** The plain ancestor chain: no visited set, only the parent links. */
  ghost function Ancestry(messages: seq<Message>, rank: map<string, nat>, id: string): seq<Message>
    requires Acyclic(messages, rank)
    decreases if id in rank then rank[id] + 1 else 0, Find(messages, id).Some?
  {
    if id == "" || Find(messages, id).None? then []
    else
      var m := Find(messages, id).value;
      (if Find(messages, ParentOf(m)).None? then [] else Ancestry(messages, rank, ParentOf(m))) + [m]
  }

  lemma {:induction false} AncestryIsThread(messages: seq<Message>, rank: map<string, nat>, id: string)
    requires Acyclic(messages, rank)
    ensures IsThread(messages, id, Ancestry(messages, rank, id))
    ensures forall m :: m in Ancestry(messages, rank, id) ==>
              IdOf(m) == id || (id in rank && IdOf(m) in rank && rank[IdOf(m)] < rank[id])
    decreases if id in rank then rank[id] + 1 else 0
  {
    if id == "" || Find(messages, id).None? {
    } else {
      var m := Find(messages, id).value;
      var parent := ParentOf(m);
      if Find(messages, parent).Some? {
        AncestryIsThread(messages, rank, parent);
        var older := Ancestry(messages, rank, parent);
        assert id !in PathIds(older);
        PathIdsGrow(older, m);
        PathGrows(messages, older, m);
      }
    }
  }

  /** Without cycles the visited set is never consulted to effect. */
  lemma WalkIsAncestry(messages: seq<Message>, rank: map<string, nat>, id: string)
    requires Acyclic(messages, rank)
    ensures Walk(messages, id, {}, false) == Ancestry(messages, rank, id)
  {
    AncestryIsThread(messages, rank, id);
    WalkIsTheThread(messages, id, Ancestry(messages, rank, id));
  }

  // ---- summaries

  /** `suffix` is the end of `path` from the nearest message with a summary, or all of it. */
  ghost predicate StartsAtNearestSummary(path: seq<Message>, suffix: seq<Message>) {
    && |suffix| <= |path|
    && suffix == path[|path| - |suffix|..]
    && (forall k :: 1 <= k < |suffix| ==> !HasSummary(suffix[k]))
    && (suffix == path || (suffix != [] && HasSummary(suffix[0])))
  }

  lemma SuffixWithLast(path: seq<Message>, suffix: seq<Message>, m: Message)
    requires StartsAtNearestSummary(path, suffix) && !HasSummary(m)
    ensures StartsAtNearestSummary(path + [m], suffix + [m])
  {
    assert (path + [m])[|path| - |suffix|..] == suffix + [m];
    assert forall k :: 0 <= k < |suffix| ==> (suffix + [m])[k] == suffix[k];
  }

  lemma {:induction false} SummaryWalkIsSuffix(messages: seq<Message>, id: string, visited: set<string>)
    ensures StartsAtNearestSummary(Walk(messages, id, visited, false), Walk(messages, id, visited, true))
    decreases |Ids(messages) - visited|
  {
    if id == "" || id in visited || Find(messages, id).None? {
    } else {
      var m := Find(messages, id).value;
      WalkUnfold(messages, id, visited, false, m);
      WalkUnfold(messages, id, visited, true, m);
      if !HasSummary(m) {
        SummaryWalkIsSuffix(messages, ParentOf(m), visited + {id});
        SuffixWithLast(Walk(messages, ParentOf(m), visited + {id}, false),
          Walk(messages, ParentOf(m), visited + {id}, true), m);
      }
    }
  }

  /**
   How a message with a summary is shown: as a system message holding the summary, with the summary's token
   count, and otherwise as it was.
   */
  ghost predicate ShowsSummaryOf(shown: Message, m: Message) {
    && shown.role == Present("system")
    && shown.content == Some([TextPart(if BlockOf(m).Some? then Present(SummaryText(BlockOf(m).value)) else m.summary)])
    && shown.tokenCount == (if BlockOf(m).Some? then BlockOf(m).value.tokenCount
                            else if m.summaryTokenCount.Present? then m.summaryTokenCount else m.tokenCount)
    && shown == m.(role := shown.role, content := shown.content, tokenCount := shown.tokenCount)
  }

  lemma ResolveShows(m: Message)
    ensures HasSummary(m) ==> ShowsSummaryOf(Resolve(m), m)
    ensures !HasSummary(m) ==> Resolve(m) == m
  {
  }

  /** `shown` is a summary in place of `plain[from]` and then everything after it as it was. */
  ghost predicate SummaryThenRest(plain: seq<Message>, from: nat, shown: seq<Message>) {
    && |shown| == |plain| - from > 0
    && HasSummary(plain[from]) && ShowsSummaryOf(shown[0], plain[from])
    && (forall k :: from < k < |plain| ==> shown[k - from] == plain[k] && !HasSummary(plain[k]))
  }

  /**
   A summarised thread is shown as the nearest summary followed by the untouched messages after
   it; without a summary in the thread it is the plain thread.
   */
  lemma SummarisedThread(messages: seq<Message>, id: string)
    ensures var plain := Walk(messages, id, {}, false);
            var shown := ProcessAll(Walk(messages, id, {}, true), true, None, None);
            if exists m :: m in plain && HasSummary(m)
            then |shown| <= |plain| && SummaryThenRest(plain, |plain| - |shown|, shown)
            else shown == plain
  {
    var plain, kept := Walk(messages, id, {}, false), Walk(messages, id, {}, true);
    var shown := ProcessAll(kept, true, None, None);
    SummaryWalkIsSuffix(messages, id, {});
    SummarisedSuffix(plain, kept, shown);
  }

  lemma SummarisedSuffix(plain: seq<Message>, kept: seq<Message>, shown: seq<Message>)
    requires StartsAtNearestSummary(plain, kept)
    requires |shown| == |kept| && forall k :: 0 <= k < |kept| ==> shown[k] == Resolve(kept[k])
    ensures if exists m :: m in plain && HasSummary(m)
            then SummaryThenRest(plain, |plain| - |shown|, shown)
            else shown == plain
  {
    forall k | 0 <= k < |kept|
      ensures HasSummary(kept[k]) ==> ShowsSummaryOf(shown[k], kept[k])
      ensures !HasSummary(kept[k]) ==> shown[k] == kept[k]
    {
      ResolveShows(kept[k]);
    }
    if m :| m in plain && HasSummary(m) {
      SuffixHasSummary(plain, kept, m);
      var from := |plain| - |kept|;
      forall k | from < k < |plain|
        ensures shown[k - from] == plain[k] && !HasSummary(plain[k])
      {
        assert kept[k - from] == plain[k];
      }
    } else {
      NoSummaryKeepsAll(plain, kept);
    }
  }

  lemma SuffixHasSummary(plain: seq<Message>, kept: seq<Message>, m: Message)
    requires StartsAtNearestSummary(plain, kept) && m in plain && HasSummary(m)
    ensures kept != [] && HasSummary(kept[0]) && kept[0] == plain[|plain| - |kept|]
  {
    if kept == plain {
      var k :| 0 <= k < |plain| && plain[k] == m;
      assert !(1 <= k);
    }
  }

  lemma NoSummaryKeepsAll(plain: seq<Message>, kept: seq<Message>)
    requires StartsAtNearestSummary(plain, kept) && forall m :: m in plain ==> !HasSummary(m)
    ensures kept == plain
  {
    assert kept != [] ==> kept[0] == plain[|plain| - |kept|] && kept[0] in plain;
  }
}
