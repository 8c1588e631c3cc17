/**
 The clustered entry point (api/server/experimental.js): the master keeps a fleet of workers alive,
 gives one of them the process-wide file sweep, and counts workers out at shutdown; each worker joins
 the assignment with its configuration. A worker's exit and disconnect are one event.
 */
module ClusterSweep {
  import opened Options
  import opened Sequences

  type WorkerId = nat

  /** Last in `Object.values(cluster.workers)`, whose numeric keys are in ascending order. */
  function Last(pool: set<WorkerId>): (r: WorkerId)
    requires pool != {}
    ensures r in pool && forall w :: w in pool ==> w <= r
  {
    LastExists(pool);
    var r :| r in pool && forall w :: w in pool ==> w <= r;
    r
  }

  lemma {:induction false} LastExists(pool: set<WorkerId>)
    requires pool != {}
    ensures exists r :: r in pool && forall w :: w in pool ==> w <= r
  {
    var x :| x in pool;
    if pool == {x} {
    } else {
      var rest := pool - {x};
      assert pool == rest + {x};
      LastExists(rest);
      var r :| r in rest && forall w :: w in rest ==> w <= r;
      var top := if r < x then x else r;
      assert top in pool && forall w :: w in pool ==> w <= top;
    }
  }

  // ---- the master

  /**
   The master's variables, and what it sees of its surroundings: the connected workers, the next
   worker id, the workers ever told to sweep, and whether it has forked its fleet or ended.
   */
  datatype Master = Master(
    activeWorkers: int,
    listeningWorkers: set<WorkerId>,
    retentionSweepWorkerId: Option<WorkerId>,
    shuttingDown: bool,
    remainingShutdownWorkers: int,
    live: set<WorkerId>,
    nextId: WorkerId,
    told: set<WorkerId>,
    forked: bool,
    ended: bool)

  const STARTING := Master(0, {}, None, false, 0, {}, 1, {}, false, false)

  function Fork(m: Master): Master {
    m.(live := m.live + {m.nextId}, nextId := m.nextId + 1)
  }

  function ForkMany(m: Master, n: nat): Master {
    if n == 0 then m else Fork(ForkMany(m, n - 1))
  }

  function Assign(m: Master): Master {
    if m.retentionSweepWorkerId.Some? && m.retentionSweepWorkerId.value in m.live then m
    else
      var available := m.live * m.listeningWorkers;
      var pool := if available != {} then available else m.live;
      if pool == {} then m
      else m.(retentionSweepWorkerId := Some(Last(pool)), told := m.told + {Last(pool)})
  }

  function Flushed(m: Master, workers: nat): Master {
    ForkMany(m, workers).(forked := true)
  }

  function Online(m: Master): Master {
    m.(activeWorkers := m.activeWorkers + 1)
  }

  function Listening(m: Master, w: WorkerId, workers: nat): Master {
    var m' := m.(listeningWorkers := m.listeningWorkers + {w});
    if |m'.listeningWorkers| == workers || (m'.retentionSweepWorkerId.None? && m'.activeWorkers >= workers) then
      Assign(m')
    else
      m'
  }

  /** The exit handler up to the point where it forks or counts down. */
  function Covered(m: Master, w: WorkerId): Master {
    var gone := m.(live := m.live - {w}, activeWorkers := m.activeWorkers - 1,
      listeningWorkers := m.listeningWorkers - {w});
    if m.retentionSweepWorkerId == Some(w) then Assign(gone.(retentionSweepWorkerId := None)) else gone
  }

  /** The rest of it: a replacement, or one fewer to wait for. */
  function ReplacedOrCounted(m: Master): Master {
    if m.shuttingDown then
      var left := if m.remainingShutdownWorkers > 1 then m.remainingShutdownWorkers - 1 else 0;
      m.(remainingShutdownWorkers := left, ended := left == 0)
    else
      Fork(m)
  }

  function Exit(m: Master, w: WorkerId): Master {
    ReplacedOrCounted(Covered(m, w))
  }

  function Shutdown(m: Master): Master {
    if m.shuttingDown then m
    else m.(shuttingDown := true, remainingShutdownWorkers := |m.live|, ended := m.live == {})
  }

  /** The master process; each method is one event handler. */
  class MasterProcess {
    const workers: nat
    var activeWorkers: int
    var listeningWorkers: set<WorkerId>
    var retentionSweepWorkerId: Option<WorkerId>
    var shuttingDown: bool
    var remainingShutdownWorkers: int
    var live: set<WorkerId>
    var nextId: WorkerId
    var told: set<WorkerId>
    var forked: bool
    var ended: bool

    constructor (workers: nat)
      ensures this.workers == workers && View() == STARTING
    {
      this.workers := workers;
      activeWorkers, listeningWorkers, retentionSweepWorkerId := 0, {}, None;
      shuttingDown, remainingShutdownWorkers := false, 0;
      live, nextId, told, forked, ended := {}, 1, {}, false, false;
    }

    function View(): Master
      reads this
    {
      Master(activeWorkers, listeningWorkers, retentionSweepWorkerId, shuttingDown, remainingShutdownWorkers,
             live, nextId, told, forked, ended)
    }

    method ForkWorker()
      modifies this
      ensures View() == Fork(old(View()))
    {
      live := live + {nextId};
      nextId := nextId + 1;
    }

    method AssignRetentionSweepWorker()
      modifies this
      ensures View() == Assign(old(View()))
    {
      if retentionSweepWorkerId.Some? && retentionSweepWorkerId.value in live {
        return;
      }
      var available := live * listeningWorkers;
      var workerPool := if available != {} then available else live;
      if workerPool == {} {
        return;
      }
      var worker := Last(workerPool);
      retentionSweepWorkerId := Some(worker);
      told := told + {worker};
    }

    method OnFlushed()
      modifies this
      ensures View() == Flushed(old(View()), workers)
    {
      for i := 0 to workers
        invariant View() == ForkMany(old(View()), i)
      {
        ForkWorker();
      }
      forked := true;
    }

    method OnOnline()
      modifies this
      ensures View() == Online(old(View()))
    {
      activeWorkers := activeWorkers + 1;
    }

    method OnListening(worker: WorkerId)
      modifies this
      ensures View() == Listening(old(View()), worker, workers)
    {
      listeningWorkers := listeningWorkers + {worker};
      if |listeningWorkers| == workers || (retentionSweepWorkerId.None? && activeWorkers >= workers) {
        AssignRetentionSweepWorker();
      }
    }

    method OnExit(worker: WorkerId)
      modifies this
      ensures View() == Exit(old(View()), worker)
    {
      live := live - {worker};
      activeWorkers := activeWorkers - 1;
      listeningWorkers := listeningWorkers - {worker};
      if retentionSweepWorkerId == Some(worker) {
        retentionSweepWorkerId := None;
        AssignRetentionSweepWorker();
      }
      ReplaceOrCount();
    }

    method ReplaceOrCount()
      modifies this
      ensures View() == ReplacedOrCounted(old(View()))
    {
      if shuttingDown {
        remainingShutdownWorkers := if remainingShutdownWorkers > 1 then remainingShutdownWorkers - 1 else 0;
        ended := remainingShutdownWorkers == 0;
        return;
      }
      ForkWorker();
    }

    method OnShutdownSignal()
      modifies this
      ensures View() == Shutdown(old(View()))
    {
      if shuttingDown {
        return;
      }
      shuttingDown := true;
      remainingShutdownWorkers := |live|;
      ended := remainingShutdownWorkers == 0;
    }
  }

  // ---- a worker

  /** A worker's three sweep variables, and how often it has started the sweep. */
  datatype Worker = Worker(shouldStart: bool, options: bool, started: bool, starts: nat)

  const BOOTING := Worker(false, false, false, 0)

  function StartOnce(w: Worker): Worker {
    if !w.shouldStart || w.started || !w.options then w else w.(started := true, starts := w.starts + 1)
  }

  function Told(w: Worker): Worker {
    StartOnce(w.(shouldStart := true))
  }

  function Configured(w: Worker): Worker {
    StartOnce(w.(options := true))
  }

  class WorkerProcess {
    var shouldStartExpiredFileSweep: bool
    var expiredFileSweepOptions: bool
    var expiredFileSweepStarted: bool
    var sweepStarts: nat

    constructor ()
      ensures View() == BOOTING
    {
      shouldStartExpiredFileSweep, expiredFileSweepOptions := false, false;
      expiredFileSweepStarted, sweepStarts := false, 0;
    }

    function View(): Worker
      reads this
    {
      Worker(shouldStartExpiredFileSweep, expiredFileSweepOptions, expiredFileSweepStarted, sweepStarts)
    }

    method StartExpiredFileSweepOnce()
      modifies this
      ensures View() == StartOnce(old(View()))
    {
      if !shouldStartExpiredFileSweep || expiredFileSweepStarted || !expiredFileSweepOptions {
        return;
      }
      expiredFileSweepStarted := true;
      sweepStarts := sweepStarts + 1;
    }

    method OnSweepMessage()
      modifies this
      ensures View() == Told(old(View()))
    {
      shouldStartExpiredFileSweep := true;
      StartExpiredFileSweepOnce();
    }

    method OnConfigLoaded()
      modifies this
      ensures View() == Configured(old(View()))
    {
      expiredFileSweepOptions := true;
      StartExpiredFileSweepOnce();
    }
  }

  // ---- the whole system

  datatype Event =
    | CacheFlushed
    | WentOnline(worker: WorkerId)
    | StartedListening(worker: WorkerId)
    | Exited(worker: WorkerId)
    | Delivered(worker: WorkerId)
    | ConfigLoaded(worker: WorkerId)
    | Signal
    | Timeout

  /**
   The master, every worker process that was ever forked, the workers that have been online, and how
   many died before their online event.
   */
  datatype System = System(master: Master, procs: map<WorkerId, Worker>, online: set<WorkerId>, earlyDeaths: nat)

  function Proc(s: System, w: WorkerId): Worker {
    if w in s.procs then s.procs[w] else BOOTING
  }

  /** Which events can occur. Messages reach only workers that were told; they may even be repeated. */
  predicate Enabled(s: System, e: Event) {
    && !s.master.ended
    && match e
       case CacheFlushed => !s.master.forked
       case WentOnline(w) => w in s.master.live && w !in s.online
       case StartedListening(w) => w in s.master.live
       case Exited(w) => w in s.master.live
       case Delivered(w) => w in s.master.live && w in s.master.told
       case ConfigLoaded(w) => w in s.master.live
       case Signal => true
       case Timeout => s.master.shuttingDown
  }

  function Next(s: System, e: Event, workers: nat): System {
    match e
    case CacheFlushed => s.(master := Flushed(s.master, workers))
    case WentOnline(w) => s.(master := Online(s.master), online := s.online + {w})
    case StartedListening(w) => s.(master := Listening(s.master, w, workers))
    case Exited(w) =>
      s.(master := Exit(s.master, w), online := s.online - {w},
         earlyDeaths := s.earlyDeaths + if w in s.online then 0 else 1)
    case Delivered(w) => s.(procs := s.procs[w := Told(Proc(s, w))])
    case ConfigLoaded(w) => s.(procs := s.procs[w := Configured(Proc(s, w))])
    case Signal => s.(master := Shutdown(s.master))
    case Timeout => s.(master := s.master.(ended := true))
  }

  const BOOT := System(STARTING, map[], {}, 0)

  ghost predicate IsRun(events: seq<Event>, workers: nat) {
    events != [] ==>
      IsRun(events[..|events| - 1], workers) && Enabled(After(events[..|events| - 1], workers), events[|events| - 1])
  }

  function After(events: seq<Event>, workers: nat): System {
    if events == [] then BOOT else Next(After(events[..|events| - 1], workers), events[|events| - 1], workers)
  }

  // ---- what every run keeps

  ghost predicate FleetInvariant(s: System, workers: nat) {
    var m := s.master;
    && (forall w :: w in m.live ==> w < m.nextId)
    && (forall w :: w in m.told || w in s.procs ==> w < m.nextId)
    && m.listeningWorkers <= m.live && s.online <= m.live
    && m.activeWorkers == |s.online| - s.earlyDeaths
    && |m.live| <= workers && (m.live != {} ==> m.forked)
    && (!m.shuttingDown ==> |m.live| == if m.forked then workers else 0)
    && (m.shuttingDown && !m.ended ==> m.remainingShutdownWorkers == |m.live| > 0)
  }

  ghost predicate SweepInvariant(s: System, workers: nat) {
    var m := s.master;
    && RecordsTheSweeper(m)
    && (|m.listeningWorkers| == workers ==> m.retentionSweepWorkerId.Some?)
  }

  ghost predicate WorkerInvariant(s: System) {
    forall w :: w in s.procs ==>
      && (s.procs[w].shouldStart ==> w in s.master.told)
      && s.procs[w].started == (s.procs[w].shouldStart && s.procs[w].options)
      && s.procs[w].starts == if s.procs[w].started then 1 else 0
  }

  ghost predicate Invariant(s: System, workers: nat) {
    FleetInvariant(s, workers) && SweepInvariant(s, workers) && WorkerInvariant(s)
  }

  lemma AssignEffect(m: Master)
    ensures var m' := Assign(m);
            && m' == m.(retentionSweepWorkerId := m'.retentionSweepWorkerId, told := m'.told)
            && (m' == m || (m'.retentionSweepWorkerId.Some? && m'.retentionSweepWorkerId.value in m.live
                            && m'.told == m.told + {m'.retentionSweepWorkerId.value}
                            && !(m.retentionSweepWorkerId.Some? && m.retentionSweepWorkerId.value in m.live)))
            && (m.live != {} ==> m'.retentionSweepWorkerId.Some? && m'.retentionSweepWorkerId.value in m.live)
  {
  }

  lemma {:induction false} ForkManyEffect(m: Master, n: nat)
    requires forall w :: w in m.live ==> w < m.nextId
    ensures var m' := ForkMany(m, n);
            && m' == m.(live := m'.live, nextId := m.nextId + n)
            && m.live <= m'.live && |m'.live| == |m.live| + n
            && (forall w :: w in m'.live ==> w < m'.nextId && (w in m.live || w >= m.nextId))
  {
    if n > 0 {
      ForkManyEffect(m, n - 1);
    }
  }

  lemma FlushKeeps(s: System, workers: nat)
    requires workers > 0 && Invariant(s, workers) && Enabled(s, CacheFlushed)
    ensures Invariant(Next(s, CacheFlushed, workers), workers)
  {
    ForkManyEffect(s.master, workers);
  }

  lemma ListeningKeeps(s: System, w: WorkerId, workers: nat)
    requires workers > 0 && Invariant(s, workers) && Enabled(s, StartedListening(w))
    ensures Invariant(Next(s, StartedListening(w), workers), workers)
  {
    AssignEffect(s.master.(listeningWorkers := s.master.listeningWorkers + {w}));
  }

  /** The recorded worker, if any, is live, and is the one live worker told to sweep. */
  ghost predicate RecordsTheSweeper(m: Master) {
    && (m.retentionSweepWorkerId.Some? ==> m.retentionSweepWorkerId.value in m.live)
    && (forall w :: w in m.live && w in m.told <==> m.retentionSweepWorkerId == Some(w))
  }

  lemma AssignKeepsRecord(m: Master)
    requires RecordsTheSweeper(m)
    ensures RecordsTheSweeper(Assign(m)) && m.told <= Assign(m).told <= m.told + m.live
  {
    AssignEffect(m);
  }

  lemma CoveredEffect(m: Master, w: WorkerId)
    requires RecordsTheSweeper(m)
    ensures var m' := Covered(m, w);
            && m' == m.(live := m.live - {w}, activeWorkers := m.activeWorkers - 1,
                 listeningWorkers := m.listeningWorkers - {w},
                        retentionSweepWorkerId := m'.retentionSweepWorkerId, told := m'.told)
            && m.told <= m'.told <= m.told + m'.live
            && RecordsTheSweeper(m')
  {
    var gone := m.(live := m.live - {w}, activeWorkers := m.activeWorkers - 1,
      listeningWorkers := m.listeningWorkers - {w});
    if m.retentionSweepWorkerId == Some(w) {
      var vacant := gone.(retentionSweepWorkerId := None);
      assert RecordsTheSweeper(vacant);
      AssignEffect(vacant);
      AssignKeepsRecord(vacant);
    }
  }

  lemma FewerListen(s: System, w: WorkerId, workers: nat)
    requires workers > 0 && Invariant(s, workers) && Enabled(s, Exited(w))
    ensures |Covered(s.master, w).listeningWorkers| < workers
  {
    CoveredEffect(s.master, w);
    SubsetSize(s.master.listeningWorkers - {w}, s.master.live - {w});
  }

  lemma ExitKeepsSweep(s: System, w: WorkerId, workers: nat)
    requires workers > 0 && Invariant(s, workers) && Enabled(s, Exited(w))
    ensures SweepInvariant(Next(s, Exited(w), workers), workers)
    ensures WorkerInvariant(Next(s, Exited(w), workers))
  {
    CoveredEffect(s.master, w);
    FewerListen(s, w, workers);
  }

  /** What the exit leaves, whoever takes over the sweep and before any replacement. */
  ghost predicate OneGone(m: Master, m': Master, w: WorkerId) {
    && w in m.live && m'.live == m.live - {w} && |m'.live| == |m.live| - 1
    && m'.listeningWorkers == m.listeningWorkers - {w} && m'.activeWorkers == m.activeWorkers - 1
    && m'.nextId == m.nextId && m'.forked == m.forked && m'.shuttingDown == m.shuttingDown && m'.ended == m.ended
    && m'.remainingShutdownWorkers == m.remainingShutdownWorkers && m.told <= m'.told <= m.told + m'.live
  }

  lemma CoveredIsOneGone(m: Master, w: WorkerId)
    requires RecordsTheSweeper(m) && w in m.live
    ensures OneGone(m, Covered(m, w), w)
  {
    CoveredEffect(m, w);
  }

  lemma ReplacedFleet(s: System, m': Master, w: WorkerId, online: set<WorkerId>, early: nat, workers: nat)
    requires FleetInvariant(s, workers) && OneGone(s.master, m', w) && !m'.shuttingDown
    requires online == s.online - {w} && early == s.earlyDeaths + if w in s.online then 0 else 1
    ensures FleetInvariant(System(Fork(m'), s.procs, online, early), workers)
  {
    assert m'.nextId !in m'.live;
    assert |Fork(m').live| == |m'.live| + 1;
  }

  lemma CountedFleet(s: System, m': Master, w: WorkerId, online: set<WorkerId>, early: nat, workers: nat)
    requires FleetInvariant(s, workers) && OneGone(s.master, m', w) && m'.shuttingDown && !s.master.ended
    requires online == s.online - {w} && early == s.earlyDeaths + if w in s.online then 0 else 1
    ensures FleetInvariant(System(ReplacedOrCounted(m'), s.procs, online, early), workers)
  {
  }

  lemma ExitKeepsFleet(s: System, w: WorkerId, workers: nat)
    requires workers > 0 && Invariant(s, workers) && Enabled(s, Exited(w))
    ensures FleetInvariant(Next(s, Exited(w), workers), workers)
  {
    var m', t := Covered(s.master, w), Next(s, Exited(w), workers);
    CoveredIsOneGone(s.master, w);
    if m'.shuttingDown {
      CountedFleet(s, m', w, t.online, t.earlyDeaths, workers);
    } else {
      ReplacedFleet(s, m', w, t.online, t.earlyDeaths, workers);
    }
  }

  lemma ExitKeeps(s: System, w: WorkerId, workers: nat)
    requires workers > 0 && Invariant(s, workers) && Enabled(s, Exited(w))
    ensures Invariant(Next(s, Exited(w), workers), workers)
  {
    ExitKeepsSweep(s, w, workers);
    ExitKeepsFleet(s, w, workers);
  }

  lemma OtherEventsKeep(s: System, e: Event, workers: nat)
    requires workers > 0 && Invariant(s, workers) && Enabled(s, e)
    requires e.WentOnline? || e.Delivered? || e.ConfigLoaded? || e.Signal? || e.Timeout?
    ensures Invariant(Next(s, e, workers), workers)
  {
  }

  lemma {:induction false} RunKeepsInvariant(events: seq<Event>, workers: nat)
    requires workers > 0 && IsRun(events, workers)
    ensures Invariant(After(events, workers), workers)
  {
    if events == [] {
    } else {
      var earlier, e := events[..|events| - 1], events[|events| - 1];
      RunKeepsInvariant(earlier, workers);
      var s := After(earlier, workers);
      match e {
        case CacheFlushed => FlushKeeps(s, workers);
        case StartedListening(w) => ListeningKeeps(s, w, workers);
        case Exited(w) => ExitKeeps(s, w, workers);
        case _ => OtherEventsKeep(s, e, workers);
      }
    }
  }

  // ---- what that means

  /** However the events interleave, at most one living worker has been told to sweep, or has started to. */
  lemma AtMostOneSweeper(events: seq<Event>, workers: nat, v: WorkerId, w: WorkerId)
    requires workers > 0 && IsRun(events, workers)
    requires var s := After(events, workers); v in s.master.live && w in s.master.live
    ensures var s := After(events, workers);
            (v in s.master.told || Proc(s, v).started) && (w in s.master.told || Proc(s, w).started) ==> v == w
  {
    RunKeepsInvariant(events, workers);
  }

  /** A worker starts the sweep once, as soon as it has both the assignment and its configuration. */
  lemma SweepStartsOnce(events: seq<Event>, workers: nat, w: WorkerId)
    requires workers > 0 && IsRun(events, workers)
    ensures var p := Proc(After(events, workers), w);
            && p.starts <= 1
            && (p.starts == 1 <==> p.shouldStart && p.options)
            && (p.starts == 1 ==> w in After(events, workers).master.told)
  {
    RunKeepsInvariant(events, workers);
  }

  lemma {:induction false} ProcRecordsItsEvents(events: seq<Event>, workers: nat, w: WorkerId)
    ensures var p := Proc(After(events, workers), w);
            && (p.shouldStart <==> Delivered(w) in events)
            && (p.options <==> ConfigLoaded(w) in events)
  {
    if events == [] {
    } else {
      var earlier, e := events[..|events| - 1], events[|events| - 1];
      ProcRecordsItsEvents(earlier, workers, w);
      assert forall x :: x in events <==> x in earlier || x == e;
    }
  }

  /** So the sweep has started exactly when both events have happened, in whichever order. */
  lemma SweepStartsWhenBothArrive(events: seq<Event>, workers: nat, w: WorkerId)
    requires workers > 0 && IsRun(events, workers)
    ensures Proc(After(events, workers), w).starts ==
            if Delivered(w) in events && ConfigLoaded(w) in events then 1 else 0
  {
    SweepStartsOnce(events, workers, w);
    ProcRecordsItsEvents(events, workers, w);
  }

  /** Once the whole fleet listens, exactly one living worker holds the sweep; if it dies another takes over at once. */
  lemma ListeningFleetHasSweeper(events: seq<Event>, workers: nat)
    requires workers > 0 && IsRun(events, workers)
    ensures var m := After(events, workers).master;
            |m.listeningWorkers| == workers ==>
              && m.retentionSweepWorkerId.Some?
              && m.live * m.told == {m.retentionSweepWorkerId.value}
  {
    RunKeepsInvariant(events, workers);
  }

  lemma SuccessorTakesOver(events: seq<Event>, workers: nat, w: WorkerId)
    requires workers > 0 && IsRun(events, workers) && Enabled(After(events, workers), Exited(w))
    requires After(events, workers).master.retentionSweepWorkerId == Some(w)
    requires After(events, workers).master.live != {w}
    ensures var m, m' := After(events, workers).master, After(events + [Exited(w)], workers).master;
            && m'.retentionSweepWorkerId.Some?
            && m'.retentionSweepWorkerId.value in m.live - {w}
            && m'.retentionSweepWorkerId.value in m'.told
            && (m.listeningWorkers - {w} != {} ==> m'.retentionSweepWorkerId.value in m.listeningWorkers)
  {
    RunKeepsInvariant(events, workers);
    assert (events + [Exited(w)])[..|events|] == events;
    var m := After(events, workers).master;
    assert m.live - {w} != {};
    AssignEffect(m.(live := m.live - {w}, activeWorkers := m.activeWorkers - 1,
                    listeningWorkers := m.listeningWorkers - {w}, retentionSweepWorkerId := None));
    if m.listeningWorkers - {w} != {} {
      assert (m.live - {w}) * (m.listeningWorkers - {w}) == m.listeningWorkers - {w};
    }
  }

  /** Every worker that exited had gone online before. */
  ghost predicate NoEarlyDeath(events: seq<Event>) {
    forall k :: 0 <= k < |events| && events[k].Exited? ==> WentOnline(events[k].worker) in events[..k]
  }

  lemma EarlyDeathSnoc(earlier: seq<Event>, e: Event)
    ensures NoEarlyDeath(earlier + [e]) <==> NoEarlyDeath(earlier) && (e.Exited? ==> WentOnline(e.worker) in earlier)
  {
    var events := earlier + [e];
    assert events[..|earlier|] == earlier && events[|earlier|] == e;
    assert forall k :: 0 <= k < |earlier| ==> events[k] == earlier[k] && events[..k] == earlier[..k];
    if NoEarlyDeath(events) {
      forall k | 0 <= k < |earlier| && earlier[k].Exited?
        ensures WentOnline(earlier[k].worker) in earlier[..k]
      {
        assert events[k].Exited?;
      }
    }
  }

  /** A living worker is online if its event came; only workers forked so far have such an event. */
  ghost predicate OnlineRecorded(s: System, events: seq<Event>) {
    && (forall w :: w in s.master.live ==> (w in s.online <==> WentOnline(w) in events))
    && (forall w: WorkerId :: WentOnline(w) in events ==> w < s.master.nextId)
    && (s.earlyDeaths == 0 <==> NoEarlyDeath(events))
  }

  lemma ForksAreNew(s: System, e: Event, workers: nat)
    requires workers > 0 && Invariant(s, workers) && Enabled(s, e)
    ensures var m, m' := s.master, Next(s, e, workers).master;
            m.nextId <= m'.nextId && forall w :: w in m'.live ==> w in m.live || w >= m.nextId
  {
    match e {
      case CacheFlushed => ForkManyEffect(s.master, workers);
      case StartedListening(w) => AssignEffect(s.master.(listeningWorkers := s.master.listeningWorkers + {w}));
      case Exited(w) => CoveredEffect(s.master, w);
      case _ =>
    }
  }

  lemma {:induction false} OnlineIsRecorded(events: seq<Event>, workers: nat)
    requires workers > 0 && IsRun(events, workers)
    ensures OnlineRecorded(After(events, workers), events)
  {
    if events != [] {
      var earlier, e := events[..|events| - 1], events[|events| - 1];
      assert events == earlier + [e];
      OnlineIsRecorded(earlier, workers);
      RunKeepsInvariant(earlier, workers);
      ForksAreNew(After(earlier, workers), e, workers);
      EarlyDeathSnoc(earlier, e);
      NextOnline(After(earlier, workers), e, workers);
      OnlineStep(After(earlier, workers), After(events, workers), earlier, e);
    }
  }

  /** What a step does to who is online, and to the count of early deaths. */
  ghost predicate OnlineMoves(s: System, t: System, e: Event) {
    && t.online == (if e.WentOnline? then s.online + {e.worker}
                    else if e.Exited? then s.online - {e.worker} else s.online)
    && t.earlyDeaths == s.earlyDeaths + (if e.Exited? && e.worker !in s.online then 1 else 0)
    && (e.WentOnline? ==> e.worker in s.master.live)
    && (e.Exited? ==> e.worker in s.master.live && e.worker !in t.master.live)
    && s.master.nextId <= t.master.nextId
    && (forall w :: w in s.master.live ==> w < s.master.nextId)
    && (forall w :: w in t.master.live ==> w in s.master.live || w >= s.master.nextId)
  }

  lemma NextOnline(s: System, e: Event, workers: nat)
    requires workers > 0 && Invariant(s, workers) && Enabled(s, e)
    requires var m, m' := s.master, Next(s, e, workers).master;
             m.nextId <= m'.nextId && forall w :: w in m'.live ==> w in m.live || w >= m.nextId
    ensures OnlineMoves(s, Next(s, e, workers), e)
  {
    if e.Exited? {
      CoveredEffect(s.master, e.worker);
    }
  }

  lemma OnlineStep(s: System, t: System, earlier: seq<Event>, e: Event)
    requires OnlineMoves(s, t, e) && OnlineRecorded(s, earlier) && s.online <= s.master.live
    requires NoEarlyDeath(earlier + [e]) <==> NoEarlyDeath(earlier) && (e.Exited? ==> WentOnline(e.worker) in earlier)
    ensures OnlineRecorded(t, earlier + [e])
  {
    forall w: WorkerId
      ensures WentOnline(w) in earlier + [e] <==> WentOnline(w) in earlier || e == WentOnline(w)
    {
    }
  }

  /**
   Fleet accounting: the fleet is whole outside shutdown; in shutdown the countdown is the number of
   living workers; and the displayed count is exact just when no worker exited before going online.
   */
  lemma FleetAccounting(events: seq<Event>, workers: nat)
    requires workers > 0 && IsRun(events, workers)
    ensures var s := After(events, workers);
            && (s.master.forked && !s.master.shuttingDown ==> |s.master.live| == workers)
            && (s.master.shuttingDown && !s.master.ended ==> s.master.remainingShutdownWorkers == |s.master.live| > 0)
            && s.online <= s.master.live
            && (forall w :: w in s.master.live ==> (w in s.online <==> WentOnline(w) in events))
            && (s.master.activeWorkers == |s.online| <==> NoEarlyDeath(events))
  {
    RunKeepsInvariant(events, workers);
    OnlineIsRecorded(events, workers);
  }

  /** From the signal on nothing is forked, and the process ends at the last exit or at the timeout, never before. */
  lemma ShutdownOnlyShrinks(events: seq<Event>, e: Event, workers: nat)
    requires workers > 0 && IsRun(events, workers)
    requires var s := After(events, workers); Enabled(s, e) && s.master.shuttingDown
    ensures var m, m' := After(events, workers).master, After(events + [e], workers).master;
            && m'.shuttingDown && m'.nextId == m.nextId
            && m'.live == (if e.Exited? then m.live - {e.worker} else m.live)
            && (m'.ended <==> e == Timeout || m'.live == {})
  {
    RunKeepsInvariant(events, workers);
    assert (events + [e])[..|events|] == events;
    var s := After(events, workers);
    match e {
      case Exited(w) =>
        CoveredEffect(s.master, w);
        assert |s.master.live - {w}| == |s.master.live| - 1;
      case StartedListening(w) => AssignEffect(s.master.(listeningWorkers := s.master.listeningWorkers + {w}));
      case _ =>
    }
  }

  /** The early death: a worker that exits before its online event leaves the displayed count one short for good. */
  lemma EarlyDeathSkewsCount()
    ensures var events := [CacheFlushed, Exited(1), WentOnline(2)];
            && IsRun(events, 1)
            && var s := After(events, 1);
               s.online == {2} == s.master.live && s.master.activeWorkers == 0
  {
    var one, two, events := [CacheFlushed], [CacheFlushed, Exited(1)], [CacheFlushed, Exited(1), WentOnline(2)];
    assert events[..2] == two && two[..1] == one && one[..0] == [];
    assert ForkMany(STARTING, 1) == Fork(ForkMany(STARTING, 0));
    assert After(one, 1) == Next(BOOT, CacheFlushed, 1) && IsRun(one, 1);
    assert After(two, 1) == Next(After(one, 1), Exited(1), 1) && IsRun(two, 1);
  }
}
