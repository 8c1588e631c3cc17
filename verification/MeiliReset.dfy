/** Resetting the search-index flag of every visible document, a batch at a time (api/db/utils.js). */
module MeiliReset {
  import opened Options
  import opened Sequences
  import opened FileNames
  import opened Text

  // ---- the batch size

  function TrimStart(s: string): string {
    if s != "" && IsSpace(s[0]) then TrimStart(s[1..]) else s
  }

  predicate IsDigit(c: char) {
    '0' <= c <= '9'
  }

  function LeadingDigits(s: string): string {
    if s != "" && IsDigit(s[0]) then [s[0]] + LeadingDigits(s[1..]) else ""
  }

  /** parseInt(s, 10): None for NaN. */
  function ParseInt(s: string): Option<int> {
    var t := TrimStart(s);
    var signed := t != "" && (t[0] == '-' || t[0] == '+');
    var digits := LeadingDigits(if signed then t[1..] else t);
    if digits == "" then None
    else if signed && t[0] == '-' then Some(-(ParseDecimal(digits) as int))
    else Some(ParseDecimal(digits))
  }

  function ParseEnvInt(value: Option<string>, defaultValue: nat): nat {
    if value.None? || value.value == "" then defaultValue
    else
      var parsed := ParseInt(value.value);
      if parsed.None? || parsed.value < 0 then defaultValue else parsed.value
  }

  lemma {:induction false} DecimalIsDigits(n: nat)
    ensures Decimal(n) != "" && forall k :: 0 <= k < |Decimal(n)| ==> IsDigit(Decimal(n)[k])
  {
    if n >= 10 {
      DecimalIsDigits(n / 10);
    }
  }

  lemma {:induction false} LeadingDigitsOf(digits: string, rest: string)
    requires forall k :: 0 <= k < |digits| ==> IsDigit(digits[k])
    requires rest == "" || !IsDigit(rest[0])
    ensures LeadingDigits(digits + rest) == digits
  {
    if digits == "" {
      assert digits + rest == rest;
    } else {
      assert (digits + rest)[1..] == digits[1..] + rest;
      LeadingDigitsOf(digits[1..], rest);
    }
  }

  lemma DigitsAreRead(s: string)
    requires s != "" && IsDigit(s[0])
    ensures ParseInt(s) == Some(ParseDecimal(LeadingDigits(s)))
  {
    assert !IsSpace(s[0]);
    assert TrimStart(s) == s;
  }

  /** A size written out in decimal, whatever follows it, is read back. */
  lemma SettingIsReadBack(n: nat, rest: string, defaultValue: nat)
    requires rest == "" || !IsDigit(rest[0])
    ensures ParseEnvInt(Some(Decimal(n) + rest), defaultValue) == n
  {
    var digits := Decimal(n);
    DecimalIsDigits(n);
    assert (digits + rest)[0] == digits[0];
    LeadingDigitsOf(digits, rest);
    DecimalRoundTrip(n);
    DigitsAreRead(digits + rest);
  }

  const DEFAULT_BATCH_SIZE := 1000

  function BatchSize(value: Option<string>): (size: nat)
    ensures size > 0
  {
    var size := ParseEnvInt(value, DEFAULT_BATCH_SIZE);
    if size == 0 then DEFAULT_BATCH_SIZE else size
  }

  // ---- the documents

  type Id = nat

  datatype Doc = Doc(isTemporary: Field<bool>, expiredAt: Option<int>, meiliIndex: Field<bool>)

  /** Retention still shows the document: kept for good, or not temporary and not yet expired. */
  predicate Visible(d: Doc, now: int) {
    match d.isTemporary
    case Present(temporary) => !temporary && (d.expiredAt.None? || d.expiredAt.value > now)
    case _ => d.expiredAt.None?
  }

  predicate Flagged(d: Doc) {
    d.meiliIndex != Present(false)
  }

  /** What one round's query matches. */
  function Matching(docs: map<Id, Doc>, now: int): set<Id> {
    set id | id in docs && Visible(docs[id], now) && Flagged(docs[id])
  }

  function ResetAll(docs: map<Id, Doc>, ids: set<Id>): map<Id, Doc> {
    map id | id in docs :: if id in ids then docs[id].(meiliIndex := Present(false)) else docs[id]
  }

  lemma ResetTwice(docs: map<Id, Doc>, first: set<Id>, second: set<Id>)
    ensures ResetAll(ResetAll(docs, first), second) == ResetAll(docs, first + second)
  {
  }

  /** Time only hides documents, and a reset only takes its own documents out of the match. */
  lemma LaterMatching(docs: map<Id, Doc>, ids: set<Id>, now: int, later: int)
    requires now <= later
    ensures Matching(ResetAll(docs, ids), later) == Matching(docs, later) - ids <= Matching(docs, now)
  {
  }

  /** A document that expires between two batches keeps its flag, and no later query finds it. */
  lemma ExpiredKeepsFlag(now: int)
    ensures var docs := map[0 := Doc(Present(false), None, Absent), 1 := Doc(Present(false), Some(now + 1), Absent)];
            && Matching(docs, now) == {0, 1}
            && Matching(ResetAll(docs, {0}), now + 1) == {} && Flagged(ResetAll(docs, {0})[1])
  {
    var docs := map[0 := Doc(Present(false), None, Absent), 1 := Doc(Present(false), Some(now + 1), Absent)];
    assert 0 in docs && 1 in docs;
    forall id
      ensures id in Matching(docs, now) <==> id in {0, 1}
      ensures id !in Matching(ResetAll(docs, {0}), now + 1)
    {
    }
  }

  lemma SameSize(a: set<Id>, b: set<Id>)
    requires a <= b && |a| == |b|
    ensures a == b
  {
    if a != b {
      ProperSubsetSize(a, b);
    }
  }

  class Collection {
    var docs: map<Id, Doc>

    /** Any `limit` of the matching documents, or all of them when there are fewer. */
    method Find(now: int, limit: nat) returns (ids: set<Id>)
      ensures ids <= Matching(docs, now)
      ensures |ids| == if |Matching(docs, now)| < limit then |Matching(docs, now)| else limit
    {
      var matching := Matching(docs, now);
      ids := {};
      while |ids| < limit && ids != matching
        invariant ids <= matching && |ids| <= limit
        decreases |matching| - |ids|
      {
        ProperSubsetSize(ids, matching);
        assert matching - ids != {};
        var id :| id in matching - ids;
        ids := ids + {id};
        SubsetSize(ids, matching);
      }
      SubsetSize(ids, matching);
    }

    /** Returns how many of them it changed. */
    method UpdateMany(ids: set<Id>) returns (modifiedCount: nat)
      modifies this
      ensures docs == ResetAll(old(docs), ids)
      ensures modifiedCount == |set id | id in ids && id in old(docs) && Flagged(old(docs)[id])|
    {
      modifiedCount := |set id | id in ids && id in docs && Flagged(docs[id])|;
      docs := ResetAll(docs, ids);
    }

    /** One round: finds a batch and resets it; short of a full batch, nothing matches any more. */
    method ResetBatch(now: int, batchSize: nat) returns (ids: set<Id>, modifiedCount: nat)
      requires batchSize > 0
      modifies this
      ensures docs == ResetAll(old(docs), ids) && ids <= Matching(old(docs), now) && modifiedCount == |ids| <= batchSize
      ensures |ids| < batchSize ==> Matching(docs, now) == {}
    {
      ids := Find(now, batchSize);
      modifiedCount := 0;
      if |ids| < batchSize {
        SameSize(ids, Matching(docs, now));
      }
      LaterMatching(docs, ids, now, now);
      if ids == {} {
        assert docs == ResetAll(docs, ids);
        return;
      }
      assert (set id | id in ids && id in docs && Flagged(docs[id])) == ids;
      modifiedCount := UpdateMany(ids);
    }

    /**
     Reads the clock afresh every round. When it stops, no document visible by its last reading is
     flagged; it reset only documents that needed it at the start, counted each of them once, and
     missed only those that expired on the way.
     */
    method BatchResetMeiliFlags(sizeSetting: Option<string>, clock: nat -> int)
      returns (totalModified: nat, ghost rounds: nat, ghost done: set<Id>)
      requires forall i, j :: i <= j ==> clock(i) <= clock(j)
      modifies this
      ensures docs == ResetAll(old(docs), done) && totalModified == |done|
      ensures Matching(docs, clock(rounds)) == {}
      ensures Matching(old(docs), clock(rounds)) <= done <= Matching(old(docs), clock(0))
    {
      var batchSize := BatchSize(sizeSetting);
      totalModified, rounds, done := 0, 0, {};
      var hasMore := true;
      var round := 0;
      assert docs == ResetAll(docs, {});
      while hasMore
        invariant docs == ResetAll(old(docs), done) && done <= Matching(old(docs), clock(0)) && totalModified == |done|
        invariant !hasMore ==> Matching(docs, clock(rounds)) == {}
        decreases hasMore, |Matching(old(docs), clock(0)) - done|
      {
        rounds := round;
        ghost var before := docs;
        var ids, modifiedCount := ResetBatch(clock(round), batchSize);
        LaterMatching(old(docs), done, clock(0), clock(round));
        ResetTwice(old(docs), done, ids);
        assert ids !! done && |done + ids| == |done| + |ids|;
        totalModified := totalModified + modifiedCount;
        if |ids| < batchSize {
          hasMore := false;
        } else {
          ProperSubsetSize(Matching(old(docs), clock(0)) - (done + ids), Matching(old(docs), clock(0)) - done);
        }
        done := done + ids;
        round := round + 1;
      }
      LaterMatching(old(docs), done, clock(0), clock(rounds));
    }
  }
}
