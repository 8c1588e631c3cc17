/**
 Splicing a new completion onto the retained content of an edited response
 (BaseClient.mergeEditedContent).
 */
module EditedContent {
  import opened Options

  /** The six reasoning-label properties of a reasoning part. */
  datatype ReasoningLabel = ReasoningLabel(
    caption: Field<string>,
    stepId: Field<string>,
    attempts: Field<int>,
    submittedChars: Field<int>,
    revision: Field<int>,
    status: Field<string>)

  const NO_LABEL := ReasoningLabel(Absent, Absent, Absent, Absent, Absent, Absent)

  /** The properties of a part that the merge never looks at. */
  type Rest = map<string, string>

  /** One entry of a message's content array. `Hole` is an undefined or null entry. */
  datatype Part =
    | Hole
    | Text(text: Field<string>, phase: Field<string>, rest: Rest)
    | Think(think: Field<string>, reasoning: ReasoningLabel, rest: Rest)
    | ActivityLabel(labelType: Field<string>, start: Field<int>, end: Field<int>, rest: Rest)
    | Other(kind: string, rest: Rest)
  {
    /** A header that groups the parts from `start` up to but not including `end`. */
    predicate IsPhase() {
      ActivityLabel? && labelType == Present("phase") && start.Present?
    }
  }

  type Content = seq<Part>

  datatype EditedType = EditText | EditThink | EditOther

  /** True when the first completion part continues the last retained part. */
  predicate Fuses(existing: Content, completion: Content, edited: EditedType) {
    && existing != []
    && completion != []
    && var last, first := existing[|existing| - 1], completion[0];
       match edited
       case EditText => last.Text? && first.Text? && last.phase.OrNull() == first.phase.OrNull()
       case EditThink => last.Think? && first.Think?
       case EditOther => false
  }

  /** How far a completion index moves: a fused first part sits on the last retained one. */
  function Offset(existing: Content, completion: Content, edited: EditedType): nat {
    if Fuses(existing, completion, edited) then |existing| - 1 else |existing|
  }

  function ShiftField(f: Field<int>, d: int): Field<int> {
    if f.Present? then Present(f.value + d) else f
  }

  function Shift(part: Part, d: int): Part {
    if part.IsPhase() then
      part.(start := ShiftField(part.start, d), end := ShiftField(part.end, d))
    else
      part
  }

  function ShiftAll(parts: Content, d: int): Content {
    seq(|parts|, i requires 0 <= i < |parts| => Shift(parts[i], d))
  }

  predicate SameKind(e: Part, n: Part) {
    (e.Text? && n.Text?) || (e.Think? && n.Think?)
  }

  /** The single part that replaces a retained part and the completion part continuing it. */
  function Fuse(e: Part, n: Part): Part
    requires SameKind(e, n)
  {
    if e.Text? then
      e.(phase := if n.phase.Present? then n.phase else e.phase,
         text := Present(OrEmpty(e.text) + OrEmpty(n.text)))
    else
      e.(reasoning := if n.reasoning.stepId.Present? then n.reasoning else NO_LABEL,
         think := Present(OrEmpty(e.think) + OrEmpty(n.think)))
  }

  function Merge(existing: Content, completion: Content, edited: EditedType): Content {
    if completion == [] then
      existing
    else
      var adjusted := ShiftAll(completion, Offset(existing, completion, edited));
      if Fuses(existing, completion, edited) then
        var last := |existing| - 1;
        existing[..last] + [Fuse(existing[last], adjusted[0])] + adjusted[1..]
      else
        existing + adjusted
  }

  // ---- where every part of the result comes from

  /**
   What the merged content must be, part by part: the retained parts below the offset as
   they were, at the offset the fused part (if any), and completion part `i` at `i + offset`
   with the same offset added to the bounds of a phase header.
   */
  ghost predicate Placed(existing: Content, completion: Content, edited: EditedType, merged: Content) {
    var off := Offset(existing, completion, edited);
    && |merged| == off + |completion|
    && (forall i :: 0 <= i < off ==> merged[i] == existing[i])
    && (off < |existing| ==> merged[off] == Fuse(existing[off], completion[0]))
    && (forall i :: |existing| <= i < |merged| ==> merged[i] == Shift(completion[i - off], off))
  }

  lemma MergePlacesEveryPart(existing: Content, completion: Content, edited: EditedType)
    ensures Placed(existing, completion, edited, Merge(existing, completion, edited))
  {
    if completion != [] {
      if Fuses(existing, completion, edited) {
        FusedIsPlaced(existing, completion, edited, ShiftAll(completion, |existing| - 1));
      } else {
        assert Merge(existing, completion, edited) == existing + ShiftAll(completion, |existing|);
      }
    }
  }

  lemma FusedIsPlaced(existing: Content, completion: Content, edited: EditedType, adjusted: Content)
    requires Fuses(existing, completion, edited) && adjusted == ShiftAll(completion, |existing| - 1)
    ensures adjusted[0] == completion[0]
    ensures Placed(existing, completion, edited,
              existing[..|existing| - 1] + [Fuse(existing[|existing| - 1], adjusted[0])] + adjusted[1..])
  {
  }

  lemma PlacedIsUnique(existing: Content, completion: Content, edited: EditedType, m: Content, m': Content)
    requires Placed(existing, completion, edited, m) && Placed(existing, completion, edited, m')
    ensures m == m'
  {
  }

  /** The merge cut at the seam. */
  lemma MergeAtSeam(existing: Content, completion: Content, edited: EditedType)
    ensures var m, off := Merge(existing, completion, edited), Offset(existing, completion, edited);
            if Fuses(existing, completion, edited) then
              && m == existing[..off] + ([Fuse(existing[off], completion[0])] + ShiftAll(completion[1..], off))
              && existing == existing[..off] + [existing[off]]
              && completion == [completion[0]] + completion[1..]
            else
              m == existing + ShiftAll(completion, off)
  {
    MergePlacesEveryPart(existing, completion, edited);
  }

  // ---- the monoid

  lemma MergeIdentity(content: Content, edited: EditedType)
    ensures Merge([], content, edited) == content
    ensures Merge(content, [], edited) == content
  {
  }

  lemma FuseAssociative(e: Part, a: Part, b: Part)
    requires SameKind(e, a) && SameKind(a, b)
    requires e.Text? ==> e.phase.OrNull() == a.phase.OrNull() == b.phase.OrNull()
    ensures Fuse(Fuse(e, a), b) == Fuse(e, Fuse(a, b))
  {
    if e.Text? {
      var x, y, z := OrEmpty(e.text), OrEmpty(a.text), OrEmpty(b.text);
      assert (x + y) + z == x + (y + z);
    } else {
      var x, y, z := OrEmpty(e.think), OrEmpty(a.think), OrEmpty(b.think);
      assert (x + y) + z == x + (y + z);
    }
  }

  /** Two parts that fuse with exactly the same neighbours. */
  predicate SameBoundary(p: Part, q: Part) {
    && p.Text? == q.Text?
    && p.Think? == q.Think?
    && (p.Text? ==> p.phase.OrNull() == q.phase.OrNull())
  }

  lemma PlacedEnds(a: Content, b: Content, edited: EditedType, m: Content)
    requires a != [] && b != [] && Placed(a, b, edited, m)
    ensures m != [] && SameBoundary(m[0], a[0]) && SameBoundary(m[|m| - 1], b[|b| - 1])
  {
  }

  /** Whether a boundary fuses is decided by the parts beside it, however they were assembled. */
  lemma FusesIsLocal(existing: Content, a: Content, b: Content, edited: EditedType, ea: Content, ab: Content)
    requires existing != [] && a != [] && b != []
    requires Placed(existing, a, edited, ea) && Placed(a, b, edited, ab)
    ensures Fuses(ea, b, edited) == Fuses(a, b, edited)
    ensures Fuses(existing, ab, edited) == Fuses(existing, a, edited)
  {
    PlacedEnds(existing, a, edited, ea);
    PlacedEnds(a, b, edited, ab);
  }

  /** Where the three inputs' boundaries fall, however they are grouped. */
  lemma OffsetsAdd(existing: Content, a: Content, b: Content, edited: EditedType, ea: Content, ab: Content)
    requires existing != [] && a != [] && b != []
    requires Placed(existing, a, edited, ea) && Placed(a, b, edited, ab)
    ensures Offset(existing, ab, edited) == Offset(existing, a, edited)
    ensures Offset(ea, b, edited) == Offset(existing, a, edited) + Offset(a, b, edited)
  {
    FusesIsLocal(existing, a, b, edited, ea, ab);
  }

  lemma ShiftTwice(part: Part, d: int, e: int)
    ensures Shift(Shift(part, d), e) == Shift(part, d + e)
    ensures !part.IsPhase() ==> Shift(part, d) == part
  {
  }

  lemma RightPrefix(existing: Content, a: Content, b: Content, edited: EditedType, ea: Content, ab: Content,
                    right: Content)
    requires existing != [] && a != [] && b != []
    requires Placed(existing, a, edited, ea) && Placed(a, b, edited, ab) && Placed(existing, ab, edited, right)
    ensures forall i :: 0 <= i < Offset(existing, a, edited) + Offset(a, b, edited) ==>
              i < |right| && i < |ea| && right[i] == ea[i]
  {
    OffsetsAdd(existing, a, b, edited, ea, ab);
    var off := Offset(existing, a, edited);
    forall i | 0 <= i < off + Offset(a, b, edited)
      ensures i < |right| && i < |ea| && right[i] == ea[i]
    {
      assert i >= off ==> ab[i - off] == a[i - off];
    }
  }

  lemma RightSeam(existing: Content, a: Content, b: Content, edited: EditedType, ea: Content, ab: Content,
                  right: Content)
    requires existing != [] && a != [] && b != []
    requires Placed(existing, a, edited, ea) && Placed(a, b, edited, ab) && Placed(existing, ab, edited, right)
    requires Fuses(a, b, edited)
    ensures var k := Offset(existing, a, edited) + Offset(a, b, edited);
            k < |right| && k < |ea| && SameKind(ea[k], b[0]) && right[k] == Fuse(ea[k], b[0])
  {
    OffsetsAdd(existing, a, b, edited, ea, ab);
    var off, step := Offset(existing, a, edited), Offset(a, b, edited);
    assert ab[step] == Fuse(a[step], b[0]);
    if step == 0 && Fuses(existing, a, edited) {
      FuseAssociative(existing[off], a[0], b[0]);
    } else {
      assert right[off + step] == Shift(ab[step], off) && ea[off + step] == Shift(a[step], off);
    }
  }

  lemma RightTailAt(existing: Content, a: Content, b: Content, edited: EditedType, ab: Content, right: Content, k: nat)
    requires existing != [] && a != [] && b != []
    requires Placed(a, b, edited, ab) && Placed(existing, ab, edited, right)
    requires Offset(existing, ab, edited) == Offset(existing, a, edited)
    requires k < |b| && Offset(a, b, edited) + k >= |a| &&
               Offset(existing, a, edited) + Offset(a, b, edited) + k >= |existing|
    ensures var off, step := Offset(existing, a, edited), Offset(a, b, edited);
            off + step + k < |right| && right[off + step + k] == Shift(b[k], off + step)
  {
    var off, step := Offset(existing, a, edited), Offset(a, b, edited);
    assert ab[step + k] == Shift(b[k], step);
    assert right[off + step + k] == Shift(ab[step + k], off);
    ShiftTwice(b[k], step, off);
  }

  lemma RightTail(existing: Content, a: Content, b: Content, edited: EditedType, ea: Content, ab: Content,
                  right: Content)
    requires existing != [] && a != [] && b != []
    requires Placed(existing, a, edited, ea) && Placed(a, b, edited, ab) && Placed(existing, ab, edited, right)
    ensures |right| == Offset(existing, a, edited) + Offset(a, b, edited) + |b|
    ensures forall i :: |ea| <= i < |right| ==>
              var d := Offset(existing, a, edited) + Offset(a, b, edited);
              0 <= i - d < |b| && right[i] == Shift(b[i - d], d)
  {
    OffsetsAdd(existing, a, b, edited, ea, ab);
    var off, step := Offset(existing, a, edited), Offset(a, b, edited);
    assert |ea| == off + |a| && |right| == off + step + |b|;
    assert off + step <= |ea| && |existing| <= |ea|;
    forall i | |ea| <= i < |right|
      ensures 0 <= i - (off + step) < |b| && right[i] == Shift(b[i - (off + step)], off + step)
    {
      RightTailAt(existing, a, b, edited, ab, right, i - (off + step));
    }
  }

  lemma PlacedAssociative(existing: Content, a: Content, b: Content, edited: EditedType, ea: Content,
                          ab: Content, right: Content)
    requires existing != [] && a != [] && b != []
    requires Placed(existing, a, edited, ea) && Placed(a, b, edited, ab)
    requires Placed(existing, ab, edited, right)
    ensures Placed(ea, b, edited, right)
  {
    FusesIsLocal(existing, a, b, edited, ea, ab);
    OffsetsAdd(existing, a, b, edited, ea, ab);
    RightPrefix(existing, a, b, edited, ea, ab, right);
    RightTail(existing, a, b, edited, ea, ab, right);
    if Fuses(a, b, edited) {
      RightSeam(existing, a, b, edited, ea, ab, right);
    }
  }

  /** Continuing twice is the same as continuing once with the two completions merged. */
  lemma MergeAssociative(existing: Content, a: Content, b: Content, edited: EditedType)
    ensures Merge(Merge(existing, a, edited), b, edited) == Merge(existing, Merge(a, b, edited), edited)
  {
    var ea, ab := Merge(existing, a, edited), Merge(a, b, edited);
    if existing == [] || a == [] || b == [] {
      MergeIdentity(existing, edited);
      MergeIdentity(a, edited);
      MergeIdentity(b, edited);
      MergeIdentity(ab, edited);
      MergeIdentity(ea, edited);
    } else {
      MergePlacesEveryPart(existing, a, edited);
      MergePlacesEveryPart(a, b, edited);
      MergePlacesEveryPart(existing, ab, edited);
      MergePlacesEveryPart(ea, b, edited);
      PlacedAssociative(existing, a, b, edited, ea, ab, Merge(existing, ab, edited));
      PlacedIsUnique(ea, b, edited, Merge(ea, b, edited), Merge(existing, ab, edited));
    }
  }

  /** Edit after edit of the same type, each splicing one more completion on. */
  function Continue(existing: Content, completions: seq<Content>, edited: EditedType): Content
    decreases |completions|
  {
    if completions == [] then existing
    else Continue(Merge(existing, completions[0], edited), completions[1..], edited)
  }

  lemma {:induction false} ContinuingIsOneMerge(existing: Content, completions: seq<Content>, edited: EditedType)
    ensures Continue(existing, completions, edited) == Merge(existing, Continue([], completions, edited), edited)
    decreases |completions|
  {
    if completions == [] {
    } else {
      var first, others := completions[0], completions[1..];
      ContinuingIsOneMerge(Merge(existing, first, edited), others, edited);
      ContinuingIsOneMerge(Merge([], first, edited), others, edited);
      MergeIdentity(first, edited);
      MergeAssociative(existing, first, Continue([], others, edited), edited);
    }
  }

  // ---- nothing that was said is lost, repeated or reordered

  /** The two streams a reader sees: the answer's text and the reasoning. */
  datatype Stream = Answer | Reasoning

  function Says(part: Part, stream: Stream): string {
    if stream == Answer && part.Text? then OrEmpty(part.text)
    else if stream == Reasoning && part.Think? then OrEmpty(part.think)
    else ""
  }

  function Transcript(parts: Content, stream: Stream): string {
    if parts == [] then "" else Says(parts[0], stream) + Transcript(parts[1..], stream)
  }

  lemma Regroup(x: string, y: string, z: string, w: string)
    ensures x + ((y + z) + w) == (x + y) + (z + w)
    ensures x + (y + z) == (x + y) + z
  {
  }

  lemma {:induction false} TranscriptOfConcat(a: Content, b: Content, stream: Stream)
    ensures Transcript(a + b, stream) == Transcript(a, stream) + Transcript(b, stream)
  {
    if a == [] {
      assert a + b == b;
    } else {
      TranscriptOfConcat(a[1..], b, stream);
      assert (a + b)[1..] == a[1..] + b;
      Regroup(Says(a[0], stream), Transcript(a[1..], stream), Transcript(b, stream), "");
    }
  }

  lemma {:induction false} TranscriptOfShifted(parts: Content, d: int, stream: Stream)
    ensures Transcript(ShiftAll(parts, d), stream) == Transcript(parts, stream)
  {
    if parts == [] {
    } else {
      assert ShiftAll(parts, d)[1..] == ShiftAll(parts[1..], d);
      TranscriptOfShifted(parts[1..], d, stream);
    }
  }

  /** What parts `i` up to `j` of the merged content say, in terms of the two inputs. */
  lemma StretchOfMerge(existing: Content, completion: Content, edited: EditedType, i: nat, j: nat, stream: Stream)
    requires Fuses(existing, completion, edited)
    requires i < |existing| && |existing| <= j <= Offset(existing, completion, edited) + |completion|
    ensures var m, off := Merge(existing, completion, edited), Offset(existing, completion, edited);
            && |m| == off + |completion|
            && Transcript(m[i..j], stream) ==
                 Transcript(existing[i..], stream) + Transcript(completion[..j - off], stream)
  {
    var off := Offset(existing, completion, edited);
    var e, n := existing[off], completion[0];
    var before, after := existing[i..off], completion[1..j - off];
    StretchParts(existing, completion, edited, i, j);
    StretchTranscript(before, e, n, after, off, stream);
  }

  lemma StretchParts(existing: Content, completion: Content, edited: EditedType, i: nat, j: nat)
    requires Fuses(existing, completion, edited)
    requires i < |existing| && |existing| <= j <= Offset(existing, completion, edited) + |completion|
    ensures var m, off := Merge(existing, completion, edited), Offset(existing, completion, edited);
            && |m| == off + |completion|
            && m[i..j] == existing[i..off] +
                 ([Fuse(existing[off], completion[0])] + ShiftAll(completion[1..j - off], off))
            && existing[i..] == existing[i..off] + [existing[off]]
            && completion[..j - off] == [completion[0]] + completion[1..j - off]
  {
    MergePlacesEveryPart(existing, completion, edited);
  }

  lemma TranscriptOfCons(part: Part, parts: Content, stream: Stream)
    ensures Transcript([part] + parts, stream) == Says(part, stream) + Transcript(parts, stream)
  {
    assert ([part] + parts)[1..] == parts;
  }

  lemma FusedSays(e: Part, n: Part, stream: Stream)
    requires SameKind(e, n)
    ensures Says(Fuse(e, n), stream) == Says(e, stream) + Says(n, stream)
  {
  }

  lemma StretchTranscript(before: Content, e: Part, n: Part, after: Content, d: int, stream: Stream)
    requires SameKind(e, n)
    ensures Transcript(before + ([Fuse(e, n)] + ShiftAll(after, d)), stream)
         == Transcript(before + [e], stream) + Transcript([n] + after, stream)
  {
    var x, y, z, w := Transcript(before, stream), Says(e, stream), Says(n, stream), Transcript(after, stream);
    calc {
      Transcript(before + ([Fuse(e, n)] + ShiftAll(after, d)), stream);
      { TranscriptOfConcat(before, [Fuse(e, n)] + ShiftAll(after, d), stream); }
      x + Transcript([Fuse(e, n)] + ShiftAll(after, d), stream);
      { TranscriptOfCons(Fuse(e, n), ShiftAll(after, d), stream); TranscriptOfShifted(after, d, stream); }
      x + (Says(Fuse(e, n), stream) + w);
      { FusedSays(e, n, stream); }
      x + ((y + z) + w);
      { Regroup(x, y, z, w); }
      (x + y) + (z + w);
      { TranscriptOfCons(n, after, stream); }
      (x + y) + Transcript([n] + after, stream);
      { TranscriptOfConcat(before, [e], stream); OnePartSays([e], stream); assert [e][..1] == [e]; }
      Transcript(before + [e], stream) + Transcript([n] + after, stream);
    }
  }

  lemma MergeConservesText(existing: Content, completion: Content, edited: EditedType, stream: Stream)
    ensures Transcript(Merge(existing, completion, edited), stream)
         == Transcript(existing, stream) + Transcript(completion, stream)
  {
    var m, off := Merge(existing, completion, edited), Offset(existing, completion, edited);
    if Fuses(existing, completion, edited) {
      MergePlacesEveryPart(existing, completion, edited);
      StretchOfMerge(existing, completion, edited, 0, |m|, stream);
      assert m[0..|m|] == m && existing[0..] == existing && completion[..|m| - off] == completion;
    } else {
      assert m == existing + ShiftAll(completion, off);
      TranscriptOfConcat(existing, ShiftAll(completion, off), stream);
      TranscriptOfShifted(completion, off, stream);
    }
  }

  // ---- what a phase header stands for

  /** Where the stretch a header groups ends; without an end bound, at the header itself. */
  function EndOf(parts: Content, i: nat): int
    requires i < |parts| && parts[i].IsPhase()
  {
    if parts[i].end.Present? then parts[i].end.value else i
  }

  /** Part `i` is a phase header whose bounds name a stretch of the parts. */
  predicate BoundsWithin(parts: Content, i: nat)
    requires i < |parts|
  {
    parts[i].IsPhase() && 0 <= parts[i].start.value <= EndOf(parts, i) <= |parts|
  }

  /** The parts that header groups. */
  function Covered(parts: Content, i: nat): Content
    requires i < |parts| && BoundsWithin(parts, i)
  {
    parts[parts[i].start.value..EndOf(parts, i)]
  }

  /**
   The stretch of parts `now` is the stretch `was` after a shift, its first part fused onto `tail` if there is
   one.
   */
  ghost predicate ImageOf(now: Content, was: Content, d: int, tail: Option<Part>) {
    && |now| == |was|
    && (tail.Some? ==> was != [] && SameKind(tail.value, was[0]) && now[0] == Fuse(tail.value, was[0]))
    && (forall k :: (if tail.Some? then 1 else 0) <= k < |now| ==> now[k] == Shift(was[k], d))
  }

  /** The retained part that the stretch grouped by the completion's header `i` is joined to. */
  function JoinedTo(existing: Content, completion: Content, edited: EditedType, i: nat): Option<Part>
    requires i < |completion| && BoundsWithin(completion, i)
  {
    if Fuses(existing, completion, edited) && completion[i].start.value == 0 < EndOf(completion, i) then
      Some(existing[|existing| - 1])
    else
      None
  }

  /**
   A header of the completion, with or without an end bound, still groups exactly the parts it named,
   each now at the position its bounds say. Only when its first part was fused does that part now begin
   with retained text.
   */
  lemma CompletionPhaseKeepsItsParts(existing: Content, completion: Content, edited: EditedType, i: nat)
    requires i < |completion| && BoundsWithin(completion, i)
    ensures var m, off := Merge(existing, completion, edited), Offset(existing, completion, edited);
            && |m| == off + |completion| && BoundsWithin(m, i + off) && m[i + off].rest == completion[i].rest
            && m[i + off].end.Present? == completion[i].end.Present?
            && ImageOf(Covered(m, i + off), Covered(completion, i), off, JoinedTo(existing, completion, edited, i))
  {
    MergePlacesEveryPart(existing, completion, edited);
    PlacedPhaseKeepsItsParts(existing, completion, edited, Merge(existing, completion, edited), i);
  }

  lemma PlacedPhaseKeepsItsParts(existing: Content, completion: Content, edited: EditedType, m: Content, i: nat)
    requires i < |completion| && BoundsWithin(completion, i) && Placed(existing, completion, edited, m)
    ensures var off := Offset(existing, completion, edited);
            && |m| == off + |completion| && BoundsWithin(m, i + off) && m[i + off].rest == completion[i].rest
            && m[i + off].end.Present? == completion[i].end.Present?
            && ImageOf(Covered(m, i + off), Covered(completion, i), off, JoinedTo(existing, completion, edited, i))
  {
    var off := Offset(existing, completion, edited);
    PlacedPhaseBounds(existing, completion, edited, m, i);
    ImageOfStretch(existing, completion, edited, m, completion[i].start.value, EndOf(completion, i));
    assert Covered(m, i + off) == m[completion[i].start.value + off..EndOf(completion, i) + off];
  }

  lemma PlacedPhaseBounds(existing: Content, completion: Content, edited: EditedType, m: Content, i: nat)
    requires i < |completion| && BoundsWithin(completion, i) && Placed(existing, completion, edited, m)
    ensures var off := Offset(existing, completion, edited);
            && |m| == off + |completion| && m[i + off].IsPhase() && m[i + off].rest == completion[i].rest
            && m[i + off].end.Present? == completion[i].end.Present?
            && m[i + off].start.value == completion[i].start.value + off
            && EndOf(m, i + off) == EndOf(completion, i) + off
  {
    var off := Offset(existing, completion, edited);
    PhaseIsNotFused(existing, completion, edited, i);
    PlacedAt(existing, completion, edited, m, i);
    ShiftedBounds(completion[i], off);
  }

  lemma PhaseIsNotFused(existing: Content, completion: Content, edited: EditedType, i: nat)
    requires i < |completion| && completion[i].IsPhase()
    ensures i > 0 || !Fuses(existing, completion, edited)
  {
  }

  lemma ShiftedBounds(phase: Part, d: int)
    requires phase.IsPhase()
    ensures var moved := Shift(phase, d);
            && moved.IsPhase() && moved.start == Present(phase.start.value + d)
            && moved.end == ShiftField(phase.end, d) && moved.rest == phase.rest
  {
  }

  lemma ImageOfStretch(existing: Content, completion: Content, edited: EditedType, m: Content, from: nat, to: nat)
    requires from <= to <= |completion| && Placed(existing, completion, edited, m)
    ensures var off := Offset(existing, completion, edited);
            && |m| == off + |completion|
            && ImageOf(m[from + off..to + off], completion[from..to], off,
                       if Fuses(existing, completion, edited) && from == 0 < to then Some(existing[|existing| - 1])
                       else None)
  {
    var off := Offset(existing, completion, edited);
    var now, was := m[from + off..to + off], completion[from..to];
    if Fuses(existing, completion, edited) && from == 0 < to {
      assert now[0] == m[off] && was[0] == completion[0];
    }
    forall k | 0 <= k < to - from && (from + k > 0 || !Fuses(existing, completion, edited))
      ensures now[k] == Shift(was[k], off)
    {
      PlacedAt(existing, completion, edited, m, from + k);
    }
  }

  lemma PlacedAt(existing: Content, completion: Content, edited: EditedType, m: Content, i: nat)
    requires Placed(existing, completion, edited, m) && i < |completion| &&
               (i > 0 || !Fuses(existing, completion, edited))
    ensures var off := Offset(existing, completion, edited);
            i + off < |m| && m[i + off] == Shift(completion[i], off)
  {
    var off := Offset(existing, completion, edited);
    assert i + off >= |existing|;
    assert m[i + off] == Shift(completion[i + off - off], off);
  }

  /** So it says what it said, after the retained text its first part was joined to, if any. */
  lemma CompletionPhaseKeepsItsMeaning(existing: Content, completion: Content, edited: EditedType, i: nat,
                                       stream: Stream)
    requires i < |completion| && BoundsWithin(completion, i)
    ensures var m, off := Merge(existing, completion, edited), Offset(existing, completion, edited);
            var joined := JoinedTo(existing, completion, edited, i);
            && |m| == off + |completion| && BoundsWithin(m, i + off)
            && Transcript(Covered(m, i + off), stream)
            == (if joined.Some? then Says(joined.value, stream) else "") + Transcript(Covered(completion, i), stream)
  {
    var m, off := Merge(existing, completion, edited), Offset(existing, completion, edited);
    CompletionPhaseKeepsItsParts(existing, completion, edited, i);
    ImageTranscript(Covered(m, i + off), Covered(completion, i), off, JoinedTo(existing, completion, edited, i),
      stream);
  }

  lemma ImageTranscript(now: Content, was: Content, d: int, tail: Option<Part>, stream: Stream)
    requires ImageOf(now, was, d, tail)
    ensures Transcript(now, stream) == (if tail.Some? then Says(tail.value, stream) else "") + Transcript(was, stream)
  {
    if tail.Some? {
      assert now[1..] == ShiftAll(was[1..], d);
      TranscriptOfShifted(was[1..], d, stream);
      FusedSays(tail.value, was[0], stream);
      Regroup(Says(tail.value, stream), Says(was[0], stream), Transcript(was[1..], stream), "");
    } else {
      assert now == ShiftAll(was, d);
      TranscriptOfShifted(was, d, stream);
    }
  }

  /**
   A header of the retained content is untouched and groups the same parts. Only when its last
   part is the fused one does it also take in the first text of the completion.
   */
  lemma RetainedPhaseKeepsItsMeaning(existing: Content, completion: Content, edited: EditedType, i: nat, stream: Stream)
    requires i < |existing| && BoundsWithin(existing, i)
    ensures var m := Merge(existing, completion, edited);
            && |m| >= |existing| && m[i] == existing[i] && BoundsWithin(m, i)
            && var was, now := Covered(existing, i), Covered(m, i);
               var joined := Fuses(existing, completion, edited) && EndOf(existing, i) == |existing| && was != [];
               && |now| == |was|
               && (forall k :: 0 <= k < |now| - (if joined then 1 else 0) ==> now[k] == was[k])
               && (joined ==> now[|now| - 1] == Fuse(was[|was| - 1], completion[0]))
               && Transcript(now, stream) ==
                    Transcript(was, stream) + (if joined then Says(completion[0], stream) else "")
  {
    var from, to := existing[i].start.value, EndOf(existing, i);
    MergePlacesEveryPart(existing, completion, edited);
    PlacedRetained(existing, completion, edited, Merge(existing, completion, edited), i, from, to);
    if Fuses(existing, completion, edited) && to == |existing| && Covered(existing, i) != [] {
      RetainedStretchSays(existing, completion, edited, from, stream);
    }
  }

  /** The stretch up to and including the fused part. */
  lemma RetainedStretchSays(existing: Content, completion: Content, edited: EditedType, from: nat, stream: Stream)
    requires Fuses(existing, completion, edited) && from < |existing|
    ensures var m := Merge(existing, completion, edited);
            && |m| >= |existing|
            && Transcript(m[from..|existing|], stream)
            == Transcript(existing[from..|existing|], stream) + Says(completion[0], stream)
  {
    StretchOfMerge(existing, completion, edited, from, |existing|, stream);
    OnePartSays(completion, stream);
    assert existing[from..] == existing[from..|existing|];
    assert |existing| - Offset(existing, completion, edited) == 1;
  }

  lemma OnePartSays(parts: Content, stream: Stream)
    requires parts != []
    ensures Transcript(parts[..1], stream) == Says(parts[0], stream)
  {
    assert parts[..1] == [parts[0]] + [];
    TranscriptOfCons(parts[0], [], stream);
  }

  lemma PlacedRetained(existing: Content, completion: Content, edited: EditedType, m: Content, i: nat,
                       from: nat, to: nat)
    requires i < |existing| && from <= to <= |existing| && Placed(existing, completion, edited, m)
    requires existing[i].IsPhase()
    ensures |m| >= |existing| && m[i] == existing[i]
    ensures var joined := Fuses(existing, completion, edited) && to == |existing| && from < to;
            && (forall k :: 0 <= k < to - from - (if joined then 1 else 0) ==> m[from..to][k] == existing[from..to][k])
            && (joined ==> m[from..to][to - from - 1] == Fuse(existing[from..to][to - from - 1], completion[0]))
            && (!joined ==> m[from..to] == existing[from..to])
  {
  }
}
