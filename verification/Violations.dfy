/**
 Counting a user's violations and banning at every threshold crossed (api/cache/logViolation.js,
 api/cache/banViolation.js), one violation at a time.
 */
module Violations {
  import opened Options

  /** How many whole ban intervals a count has reached. */
  function Threshold(count: real, interval: real): int
    requires interval > 0.0
  {
    (count / interval).Floor
  }

  predicate Crosses(prev: real, count: real, interval: real)
    requires interval > 0.0
  {
    Threshold(prev, interval) < Threshold(count, interval)
  }

  // ---- crossings and multiples of the interval

  lemma DivideBelow(x: real, interval: real, m: int)
    requires interval > 0.0
    ensures x < m as real * interval <==> x / interval < m as real
  {
    assert x == (x / interval) * interval;
    if x / interval < m as real {
      assert (m as real - x / interval) * interval > 0.0;
    } else {
      assert (x / interval - m as real) * interval >= 0.0;
    }
  }

  /** A count is short of a multiple exactly when it has not reached that many whole intervals. */
  lemma ShortOfMultiple(x: real, interval: real, m: int)
    requires interval > 0.0
    ensures x < m as real * interval <==> Threshold(x, interval) < m
  {
    DivideBelow(x, interval, m);
  }

  /** Going from one count to the other passes or reaches this multiple of the interval. */
  predicate PassesMultiple(prev: real, count: real, interval: real, m: int) {
    prev < m as real * interval <= count
  }

  lemma PassesBetweenThresholds(prev: real, count: real, interval: real, m: int)
    requires interval > 0.0
    ensures PassesMultiple(prev, count, interval, m) <==> Threshold(prev, interval) < m <= Threshold(count, interval)
  {
    ShortOfMultiple(prev, interval, m);
    ShortOfMultiple(count, interval, m);
  }

  /** A violation is acted on exactly when it takes the count to or past a multiple it was short of. */
  lemma CrossesIffPassesMultiple(prev: real, count: real, interval: real)
    requires interval > 0.0
    ensures Crosses(prev, count, interval) <==> exists m :: PassesMultiple(prev, count, interval, m)
  {
    var before, after := Threshold(prev, interval), Threshold(count, interval);
    assert Crosses(prev, count, interval) <==> before < after;
    PassesBetweenThresholds(prev, count, interval, after);
    forall m | PassesMultiple(prev, count, interval, m)
      ensures before < after
    {
      PassesBetweenThresholds(prev, count, interval, m);
    }
  }

  /** So a count that is a multiple is acted on exactly when the violation counted for something. */
  lemma MultipleCrossesIffScored(prev: real, score: real, interval: real, m: int)
    requires interval > 0.0 && score >= 0.0 && prev + score == m as real * interval
    ensures Crosses(prev, prev + score, interval) <==> score > 0.0
  {
    CrossesIffPassesMultiple(prev, prev + score, interval);
    if score > 0.0 {
      assert PassesMultiple(prev, prev + score, interval, m);
    }
  }

  /** A violation that counts for nothing, at a multiple: the count is a multiple, and nothing happens. */
  lemma MultipleWithoutCrossing(interval: real, m: int)
    requires interval > 0.0
    ensures var count := m as real * interval; !Crosses(count, count + 0.0, interval)
  {
    var count := m as real * interval;
    assert count + 0.0 == count;
  }

  /** A violation worth two intervals: two multiples passed, one crossing. */
  lemma TwoMultiplesOneCrossing(interval: real)
    requires interval > 0.0
    ensures var scores := [interval + interval];
            && Crossings(0.0, scores, interval) == 1
            && Threshold(Total(scores), interval) - Threshold(0.0, interval) == 2
  {
    var twice := interval + interval;
    var scores := [twice];
    assert scores[..0] == [] && Total(scores) == Total([]) + twice == twice;
    assert twice / interval == 2.0;
    assert 0.0 / interval == 0.0;
    assert Crossings(0.0, [], interval) == 0;
  }

  // ---- the arithmetic of a history of scores

  function Total(scores: seq<real>): real {
    if scores == [] then 0.0 else Total(scores[..|scores| - 1]) + scores[|scores| - 1]
  }

  /** How many of the scores, counted up from `start`, crossed a threshold. */
  function Crossings(start: real, scores: seq<real>, interval: real): nat
    requires interval > 0.0
  {
    if scores == [] then 0
    else
      var init := scores[..|scores| - 1];
      var prev := start + Total(init);
      Crossings(start, init, interval) + if Crosses(prev, prev + scores[|scores| - 1], interval) then 1 else 0
  }

  ghost predicate NonNegative(scores: seq<real>) {
    forall k :: 0 <= k < |scores| ==> scores[k] >= 0.0
  }

  lemma DivideSum(a: real, b: real, interval: real)
    requires interval > 0.0
    ensures (a + b) / interval == a / interval + b / interval
  {
  }

  lemma DivideCompare(s: real, interval: real)
    requires interval > 0.0
    ensures s >= 0.0 <==> s / interval >= 0.0
    ensures s <= interval <==> s / interval <= 1.0
  {
    assert s == (s / interval) * interval;
    if s / interval < 0.0 {
      assert (s / interval) * interval < 0.0;
    }
    if s / interval > 1.0 {
      assert (s / interval - 1.0) * interval > 0.0;
    }
  }

  /** One score moves the threshold up, by at most one when it is no more than the interval. */
  lemma ScoreMovesThreshold(prev: real, score: real, interval: real)
    requires interval > 0.0 && score >= 0.0
    ensures Threshold(prev, interval) <= Threshold(prev + score, interval)
    ensures score <= interval ==> Threshold(prev + score, interval) <= Threshold(prev, interval) + 1
    ensures score >= interval ==> Threshold(prev + score, interval) > Threshold(prev, interval)
  {
    DivideSum(prev, score, interval);
    DivideCompare(score, interval);
  }

  /** Crossings never outnumber the intervals gone by. */
  lemma {:induction false} CrossingsAreBounded(start: real, scores: seq<real>, interval: real)
    requires interval > 0.0 && NonNegative(scores)
    ensures Total(scores) >= 0.0
    ensures Crossings(start, scores, interval) <=
              Threshold(start + Total(scores), interval) - Threshold(start, interval)
  {
    if scores != [] {
      var init, last := scores[..|scores| - 1], scores[|scores| - 1];
      CrossingsAreBounded(start, init, interval);
      ScoreMovesThreshold(start + Total(init), last, interval);
      assert start + Total(scores) == start + Total(init) + last;
    }
  }

  /** No score jumps over a whole interval's worth of thresholds. */
  ghost predicate SkipsNone(start: real, scores: seq<real>, interval: real)
    requires interval > 0.0
  {
    scores != [] ==>
      var init := scores[..|scores| - 1];
      var prev := start + Total(init);
      SkipsNone(start, init, interval)
      && Threshold(prev + scores[|scores| - 1], interval) <= Threshold(prev, interval) + 1
  }

  /** There is one crossing to every interval gone by exactly when no score skips a threshold. */
  lemma {:induction false} EveryThresholdCrossedIff(start: real, scores: seq<real>, interval: real)
    requires interval > 0.0 && NonNegative(scores)
    ensures Crossings(start, scores, interval) ==
              Threshold(start + Total(scores), interval) - Threshold(start, interval)
            <==> SkipsNone(start, scores, interval)
  {
    if scores != [] {
      var init, last := scores[..|scores| - 1], scores[|scores| - 1];
      EveryThresholdCrossedIff(start, init, interval);
      CrossingsAreBounded(start, init, interval);
      ScoreMovesThreshold(start + Total(init), last, interval);
      assert start + Total(scores) == start + Total(init) + last;
    }
  }

  /** Scores no larger than the interval skip none. */
  lemma {:induction false} SmallScoresSkipNone(start: real, scores: seq<real>, interval: real)
    requires interval > 0.0 && NonNegative(scores)
    requires forall k :: 0 <= k < |scores| ==> scores[k] <= interval
    ensures SkipsNone(start, scores, interval)
  {
    if scores != [] {
      SmallScoresSkipNone(start, scores[..|scores| - 1], interval);
      ScoreMovesThreshold(start + Total(scores[..|scores| - 1]), scores[|scores| - 1], interval);
    }
  }

  /** A stretch of violations adding up to an interval bans at least once, wherever the count stood. */
  lemma IntervalOfViolationsCrosses(start: real, scores: seq<real>, interval: real)
    requires interval > 0.0 && NonNegative(scores) && Total(scores) >= interval
    ensures Crossings(start, scores, interval) >= 1
  {
    ScoreMovesThreshold(start, Total(scores), interval);
    SomeCrossing(start, scores, interval);
  }

  lemma {:induction false} SomeCrossing(start: real, scores: seq<real>, interval: real)
    requires interval > 0.0 && NonNegative(scores)
    requires Threshold(start, interval) < Threshold(start + Total(scores), interval)
    ensures Crossings(start, scores, interval) >= 1
  {
    if scores != [] {
      var init, last := scores[..|scores| - 1], scores[|scores| - 1];
      assert start + Total(scores) == start + Total(init) + last;
      if Threshold(start, interval) < Threshold(start + Total(init), interval) {
        SomeCrossing(start, init, interval);
      }
    }
  }

  // ---- the stores

  datatype Violation = Violation(kind: string, user: string, score: real, duration: real, ip: string, time: real)

  /** What the log keeps of a violation; the ban's length when there was one. */
  datatype Entry = Entry(kind: string, prevCount: real, count: real, ban: Option<real>)

  datatype Ban = Ban(kind: string, user: string, count: real, duration: real, expiresAt: real)

  /** The scores of one user's violations of one kind, in order. */
  function ScoresOf(history: seq<Violation>, kind: string, user: string): seq<real> {
    if history == [] then []
    else
      var last := history[|history| - 1];
      var earlier := ScoresOf(history[..|history| - 1], kind, user);
      earlier + if last.kind == kind && last.user == user then [last.score] else []
  }

  lemma ScoresGrow(history: seq<Violation>, v: Violation, kind: string, user: string)
    ensures ScoresOf(history + [v], kind, user) ==
            ScoresOf(history, kind, user) + if v.kind == kind && v.user == user then [v.score] else []
  {
    assert (history + [v])[..|history|] == history;
  }

  /** How often sessions are to have been ended for these scores. */
  function Endings(enabled: bool, interval: real, scores: seq<real>): nat
    requires interval > 0.0
  {
    if enabled then Crossings(0.0, scores, interval) else 0
  }

  lemma TotalsGrow(scores: seq<real>, score: real, interval: real)
    requires interval > 0.0
    ensures Total(scores + [score]) == Total(scores) + score
    ensures Crossings(0.0, scores + [score], interval) ==
            Crossings(0.0, scores, interval) + if Crosses(Total(scores), Total(scores) + score, interval) then 1 else 0
  {
    assert (scores + [score])[..|scores|] == scores;
  }

  /** One more score, given whether it triggers. */
  ghost predicate OneMore(enabled: bool, interval: real, scores: seq<real>, score: real, triggers: bool)
    requires interval > 0.0
  {
    && Total(scores + [score]) == Total(scores) + score
    && Endings(enabled, interval, scores + [score]) == Endings(enabled, interval, scores) + if triggers then 1 else 0
  }

  lemma EndingsGrow(enabled: bool, interval: real, scores: seq<real>, score: real, prev: real, crosses: bool)
    requires interval > 0.0 && prev == Total(scores) && crosses == Crosses(prev, prev + score, interval)
    ensures OneMore(enabled, interval, scores, score, enabled && crosses)
  {
    TotalsGrow(scores, score, interval);
  }

  type Counts = map<(string, string), real>

  function StoredCount(counts: Counts, kind: string, user: string): real {
    if (kind, user) in counts then counts[(kind, user)] else 0.0
  }

  ghost predicate RecordRight(
    enabled: bool, interval: real, counts: Counts, sessionsEnded: seq<(string, string)>, history: seq<Violation>,
    kind: string, user: string)
    requires interval > 0.0
  {
    var scores := ScoresOf(history, kind, user);
    && StoredCount(counts, kind, user) == Total(scores)
    && multiset(sessionsEnded)[(kind, user)] == Endings(enabled, interval, scores)
  }

  ghost predicate RecordsRight(
    enabled: bool, interval: real, counts: Counts, sessionsEnded: seq<(string, string)>, history: seq<Violation>)
    requires interval > 0.0
  {
    forall kind, user :: RecordRight(enabled, interval, counts, sessionsEnded, history, kind, user)
  }

  /** The stores after the violation: its count replaced, and its user's sessions ended if it triggers. */
  function CountsWith(counts: Counts, v: Violation): Counts {
    counts[(v.kind, v.user) := StoredCount(counts, v.kind, v.user) + v.score]
  }

  function EndedWith(sessionsEnded: seq<(string, string)>, v: Violation, triggers: bool): seq<(string, string)> {
    sessionsEnded + if triggers then [(v.kind, v.user)] else []
  }

  lemma EndedWithCounts(sessionsEnded: seq<(string, string)>, v: Violation, triggers: bool, key: (string, string))
    ensures multiset(EndedWith(sessionsEnded, v, triggers))[key] ==
            multiset(sessionsEnded)[key] + if triggers && key == (v.kind, v.user) then 1 else 0
  {
    var more := if triggers then [(v.kind, v.user)] else [];
    assert multiset(sessionsEnded + more) == multiset(sessionsEnded) + multiset(more);
  }

  lemma OwnRecord(
    enabled: bool, interval: real, counts: Counts, sessionsEnded: seq<(string, string)>, history: seq<Violation>,
    v: Violation, triggers: bool)
    requires interval > 0.0 && RecordRight(enabled, interval, counts, sessionsEnded, history, v.kind, v.user)
    requires OneMore(enabled, interval, ScoresOf(history, v.kind, v.user), v.score, triggers)
    ensures RecordRight(enabled, interval, CountsWith(counts, v), EndedWith(sessionsEnded, v, triggers), history + [v],
                        v.kind, v.user)
  {
    ScoresGrow(history, v, v.kind, v.user);
    EndedWithCounts(sessionsEnded, v, triggers, (v.kind, v.user));
  }

  lemma OtherRecord(
    enabled: bool, interval: real, counts: Counts, sessionsEnded: seq<(string, string)>, history: seq<Violation>,
    v: Violation, triggers: bool, kind: string, user: string)
    requires interval > 0.0 && RecordRight(enabled, interval, counts, sessionsEnded, history, kind, user)
    requires kind != v.kind || user != v.user
    ensures RecordRight(enabled, interval, CountsWith(counts, v), EndedWith(sessionsEnded, v, triggers), history + [v],
                        kind, user)
  {
    ScoresGrow(history, v, kind, user);
    assert ScoresOf(history, kind, user) + [] == ScoresOf(history, kind, user);
    EndedWithCounts(sessionsEnded, v, triggers, (kind, user));
  }

  lemma RecordsGrow(
    enabled: bool, interval: real, counts: Counts, sessionsEnded: seq<(string, string)>, history: seq<Violation>,
    v: Violation, triggers: bool)
    requires interval > 0.0 && RecordsRight(enabled, interval, counts, sessionsEnded, history)
    requires OneMore(enabled, interval, ScoresOf(history, v.kind, v.user), v.score, triggers)
    ensures RecordsRight(enabled, interval, CountsWith(counts, v), EndedWith(sessionsEnded, v, triggers), history + [v])
  {
    var newCounts, newEnded, newHistory := CountsWith(counts, v), EndedWith(sessionsEnded, v, triggers), history + [v];
    forall kind: string, user: string
      ensures RecordRight(enabled, interval, newCounts, newEnded, newHistory, kind, user)
    {
      assert RecordRight(enabled, interval, counts, sessionsEnded, history, kind, user);
      if kind == v.kind && user == v.user {
        OwnRecord(enabled, interval, counts, sessionsEnded, history, v, triggers);
      } else {
        OtherRecord(enabled, interval, counts, sessionsEnded, history, v, triggers, kind, user);
      }
    }
  }

  lemma OneMoreViolation(
    enabled: bool, interval: real, counts: Counts, sessionsEnded: seq<(string, string)>, history: seq<Violation>,
    v: Violation)
    requires interval > 0.0 && RecordsRight(enabled, interval, counts, sessionsEnded, history)
    ensures var prev := StoredCount(counts, v.kind, v.user);
            var triggers := enabled && Crosses(prev, prev + v.score, interval);
            RecordsRight(enabled, interval, CountsWith(counts, v), EndedWith(sessionsEnded, v, triggers), history + [v])
  {
    var prev := StoredCount(counts, v.kind, v.user);
    var crosses := Crosses(prev, prev + v.score, interval);
    assert RecordRight(enabled, interval, counts, sessionsEnded, history, v.kind, v.user);
    EndingsGrow(enabled, interval, ScoresOf(history, v.kind, v.user), v.score, prev, crosses);
    RecordsGrow(enabled, interval, counts, sessionsEnded, history, v, enabled && crosses);
  }

  /**
   A user's sessions are ended for one kind of violation no more often than the whole intervals their
   scores add up to, and exactly as often when no score skips a threshold.
   */
  lemma SessionsEndOncePerInterval(
    interval: real, counts: Counts, sessionsEnded: seq<(string, string)>, history: seq<Violation>,
    kind: string, user: string)
    requires interval > 0.0 && RecordsRight(true, interval, counts, sessionsEnded, history)
    requires NonNegative(ScoresOf(history, kind, user))
    ensures var scores, ended := ScoresOf(history, kind, user), multiset(sessionsEnded)[(kind, user)];
            && ended <= Threshold(Total(scores), interval)
            && (ended == Threshold(Total(scores), interval) <==> SkipsNone(0.0, scores, interval))
  {
    var scores := ScoresOf(history, kind, user);
    assert RecordRight(true, interval, counts, sessionsEnded, history, kind, user);
    assert Threshold(0.0, interval) == 0;
    CrossingsAreBounded(0.0, scores, interval);
    EveryThresholdCrossedIff(0.0, scores, interval);
    assert 0.0 + Total(scores) == Total(scores);
  }

  function LogsWith(logs: map<string, seq<Entry>>, key: string, entry: Entry): map<string, seq<Entry>> {
    logs[key := (if key in logs then logs[key] else []) + [entry]]
  }

  class Stores {
    const enabled: bool
    const useRedis: bool
    const interval: real
    const banTtl: real
    /** One store of counts a kind of violation, and one log store for all kinds. */
    var counts: Counts
    var logs: map<string, seq<Entry>>
    var bans: map<string, Ban>
    var sessionsEnded: seq<(string, string)>
    ghost var history: seq<Violation>

    constructor (enabled: bool, useRedis: bool, interval: real, banTtl: real)
      requires interval > 0.0
      ensures Valid() && history == []
      ensures this.enabled == enabled && this.useRedis == useRedis && this.interval == interval && this.banTtl == banTtl
    {
      this.enabled, this.useRedis, this.interval, this.banTtl := enabled, useRedis, interval, banTtl;
      counts, logs, bans, sessionsEnded, history := map[], map[], map[], [], [];
    }

    function Key(kind: string, user: string): string {
      if useRedis then kind + ":" + user else user
    }

    function CountOf(kind: string, user: string): real
      reads this
    {
      StoredCount(counts, kind, user)
    }

    /** Every stored count is the total, and every user's sessions were ended once a crossing. */
    ghost predicate Valid()
      reads this
    {
      interval > 0.0 && RecordsRight(enabled, interval, counts, sessionsEnded, history)
    }

    function Duration(v: Violation): real {
      if v.duration != 0.0 then v.duration else banTtl
    }

    /** The violation takes its user's count over a threshold, where such things are acted on. */
    predicate Triggers(v: Violation, prevCount: real)
      requires interval > 0.0
    {
      enabled && Crosses(prevCount, prevCount + v.score, interval)
    }

    /** How long the violation bans for, if it does. */
    function BanLength(v: Violation, prevCount: real): Option<real>
      requires interval > 0.0
    {
      if Triggers(v, prevCount) && Duration(v) > 0.0 then Some(Duration(v)) else None
    }

    function BansAfter(before: map<string, Ban>, v: Violation, prevCount: real): map<string, Ban>
      requires interval > 0.0
    {
      if BanLength(v, prevCount).Some? then
        var ban := Ban(v.kind, v.user, prevCount + v.score, Duration(v), v.time + Duration(v));
        var byUser := before[v.user := ban];
        if v.ip == "" then byUser else byUser[v.ip := ban]
      else before
    }

    /** Ends the user's sessions at a crossing, and bans them (and their address) if bans have a length. */
    method BanViolation(v: Violation, prevCount: real) returns (ban: Option<real>)
      requires interval > 0.0
      modifies `bans, `sessionsEnded
      ensures sessionsEnded == EndedWith(old(sessionsEnded), v, Triggers(v, prevCount))
      ensures ban == BanLength(v, prevCount)
      ensures bans == BansAfter(old(bans), v, prevCount)
    {
      if !enabled {
        return None;
      }
      var prevThreshold, currentThreshold := Threshold(prevCount, interval), Threshold(prevCount + v.score, interval);
      if prevThreshold >= currentThreshold {
        return None;
      }
      sessionsEnded := sessionsEnded + [(v.kind, v.user)];
      var duration := if v.duration != 0.0 then v.duration else banTtl;
      if duration <= 0.0 {
        return None;
      }
      var entry := Ban(v.kind, v.user, prevCount + v.score, duration, v.time + duration);
      bans := bans[v.user := entry];
      if v.ip != "" {
        bans := bans[v.ip := entry];
      }
      ban := Some(duration);
    }

    /** Adds an entry to a log; every other log is as it was. */
    method AppendLog(key: string, entry: Entry)
      modifies `logs
      ensures logs == LogsWith(old(logs), key, entry)
    {
      var userLogs := if key in logs then logs[key] else [];
      logs := logs[key := userLogs + [entry]];
    }

    method LogViolation(v: Violation)
      requires Valid()
      modifies this
      ensures Valid()
      ensures v.user == "" ==> && history == old(history) && counts == old(counts) && bans == old(bans)
                               && logs == old(logs) && sessionsEnded == old(sessionsEnded)
      ensures v.user != "" ==>
        var prev := old(CountOf(v.kind, v.user));
        && history == old(history) + [v] && counts == CountsWith(old(counts), v)
        && sessionsEnded == EndedWith(old(sessionsEnded), v, Triggers(v, prev))
        && bans == BansAfter(old(bans), v, prev)
        && logs == LogsWith(old(logs), Key(v.kind, v.user), Entry(v.kind, prev, prev + v.score, BanLength(v, prev)))
    {
      if v.user == "" {
        return;
      }
      OneMoreViolation(enabled, interval, counts, sessionsEnded, history, v);
      var userViolations := CountOf(v.kind, v.user);
      var violationCount := userViolations + v.score;
      counts := counts[(v.kind, v.user) := violationCount];
      var ban := BanViolation(v, userViolations);
      AppendLog(Key(v.kind, v.user), Entry(v.kind, userViolations, violationCount, ban));
      history := history + [v];
    }
  }
}
