/**
 The service worker pinging every window client and reloading those that do not answer in time
 (client/sw/heal.js).
 */
module HealPing {
  import opened Options

  type ClientId = string

  datatype Client = Client(id: ClientId, nested: bool)

  /** A message to the worker, or a ping's timer going off. */
  datatype Event =
    | Message(isPong: bool, source: Option<ClientId>)
    | Timeout(ping: nat)

  /**
   Who is waited for (under the client's id, the ping whose promise a pong resolves), what each
   ping's promise was resolved to, and the clients sent to reload.
   */
  datatype State = State(pendingPongs: map<ClientId, nat>, resolved: seq<seq<bool>>, navigated: seq<nat>)

  function TopLevel(windowClients: seq<Client>): seq<Client> {
    if windowClients == [] then []
    else (if windowClients[0].nested then [] else [windowClients[0]]) + TopLevel(windowClients[1..])
  }

  /** All the pings are sent before any event is handled. */
  function Start(clients: seq<Client>): State {
    if clients == [] then State(map[], [], [])
    else
      var ping := |clients| - 1;
      var s := Start(clients[..ping]);
      s.(pendingPongs := s.pendingPongs[clients[ping].id := ping], resolved := s.resolved + [[]])
  }

  /** Settles a ping; a client found unresponsive is sent to reload. */
  function Resolve(s: State, ping: nat, responsive: bool): State {
    if ping < |s.resolved| then
      s.(resolved := s.resolved[ping := s.resolved[ping] + [responsive]],
         navigated := if responsive then s.navigated else s.navigated + [ping])
    else s
  }

  function Next(clients: seq<Client>, s: State, e: Event): State {
    match e
    case Message(isPong, source) =>
      if isPong && source.Some? && source.value in s.pendingPongs then
        Resolve(s.(pendingPongs := s.pendingPongs - {source.value}), s.pendingPongs[source.value], true)
      else s
    case Timeout(ping) =>
      if ping < |clients| && clients[ping].id in s.pendingPongs then
        Resolve(s.(pendingPongs := s.pendingPongs - {clients[ping].id}), ping, false)
      else s
  }

  function Play(clients: seq<Client>, events: seq<Event>): State {
    if events == [] then Start(clients)
    else Next(clients, Play(clients, events[..|events| - 1]), events[|events| - 1])
  }

  // ---- the worker

  class Worker {
    var pendingPongs: map<ClientId, nat>
    var resolved: seq<seq<bool>>
    var navigated: seq<nat>

    constructor ()
      ensures Now() == Start([])
    {
      pendingPongs, resolved, navigated := map[], [], [];
    }

    function Now(): State
      reads this
    {
      State(pendingPongs, resolved, navigated)
    }

    method PingClient(clients: seq<Client>, ping: nat)
      requires ping < |clients| && Now() == Start(clients[..ping])
      modifies this
      ensures Now() == Start(clients[..ping + 1])
    {
      pendingPongs := pendingPongs[clients[ping].id := ping];
      resolved := resolved + [[]];
      assert clients[..ping + 1][..ping] == clients[..ping];
    }

    method Settle(ping: nat, responsive: bool)
      requires ping < |resolved|
      modifies this
      ensures Now() == Resolve(old(Now()), ping, responsive)
    {
      resolved := resolved[ping := resolved[ping] + [responsive]];
      if !responsive {
        navigated := navigated + [ping];
      }
    }

    method OnMessage(clients: seq<Client>, isPong: bool, source: Option<ClientId>)
      requires forall id :: id in pendingPongs ==> pendingPongs[id] < |resolved|
      modifies this
      ensures Now() == Next(clients, old(Now()), Message(isPong, source))
    {
      if !isPong || source.None? {
        return;
      }
      if source.value in pendingPongs {
        var ping := pendingPongs[source.value];
        pendingPongs := pendingPongs - {source.value};
        Settle(ping, true);
      }
    }

    method OnTimeout(clients: seq<Client>, ping: nat)
      requires ping < |clients| == |resolved|
      modifies this
      ensures Now() == Next(clients, old(Now()), Timeout(ping))
    {
      if clients[ping].id in pendingPongs {
        pendingPongs := pendingPongs - {clients[ping].id};
        Settle(ping, false);
      }
    }

    method PingAll(clients: seq<Client>)
      requires Now() == Start([])
      modifies this
      ensures Now() == Start(clients)
    {
      var ping := 0;
      assert clients[..0] == [];
      while ping < |clients|
        invariant 0 <= ping <= |clients| && Now() == Start(clients[..ping])
      {
        PingClient(clients, ping);
        ping := ping + 1;
      }
      assert clients[..|clients|] == clients;
    }

    method HandleAll(clients: seq<Client>, events: seq<Event>)
      requires Now() == Start(clients)
      requires forall k :: 0 <= k < |events| && events[k].Timeout? ==> events[k].ping < |clients|
      modifies this
      ensures Now() == Play(clients, events)
    {
      var k := 0;
      while k < |events|
        invariant 0 <= k <= |events| && Now() == Play(clients, events[..k])
      {
        PlayIsSound(clients, events[..k]);
        PlayExtends(clients, events, k);
        match events[k] {
          case Message(isPong, source) => OnMessage(clients, isPong, source);
          case Timeout(ping) => OnTimeout(clients, ping);
        }
        k := k + 1;
      }
      assert events[..|events|] == events;
    }

    /** The whole activation, the events being those that follow the pings. */
    method ReloadUnresponsiveClients(windowClients: seq<Client>, events: seq<Event>)
      requires Now() == Start([])
      requires forall k :: 0 <= k < |events| && events[k].Timeout? ==> events[k].ping < |TopLevel(windowClients)|
      modifies this
      ensures Now() == Play(TopLevel(windowClients), events)
    {
      var topLevelClients := TopLevel(windowClients);
      PingAll(topLevelClients);
      HandleAll(topLevelClients, events);
    }
  }

  lemma PlayExtends(clients: seq<Client>, events: seq<Event>, k: nat)
    requires k < |events|
    ensures Play(clients, events[..k + 1]) == Next(clients, Play(clients, events[..k]), events[k])
  {
    assert events[..k + 1][..k] == events[..k];
  }

  // ---- what the state is, at any time

  /** Whoever is waited for is one of the clients, under their own id. */
  ghost predicate Sound(clients: seq<Client>, s: State) {
    && |s.resolved| == |clients|
    && forall id :: id in s.pendingPongs ==> s.pendingPongs[id] < |clients| && clients[s.pendingPongs[id]].id == id
  }

  lemma {:induction false} StartIsSound(clients: seq<Client>)
    ensures var s := Start(clients); Sound(clients, s) && s.navigated == []
    ensures forall i :: 0 <= i < |clients| ==>
              Start(clients).resolved[i] == [] && clients[i].id in Start(clients).pendingPongs
  {
    if clients != [] {
      StartIsSound(clients[..|clients| - 1]);
    }
  }

  lemma {:induction false} PlayIsSound(clients: seq<Client>, events: seq<Event>)
    ensures Sound(clients, Play(clients, events))
  {
    if events == [] {
      StartIsSound(clients);
    } else {
      PlayIsSound(clients, events[..|events| - 1]);
    }
  }

  ghost predicate DistinctIds(clients: seq<Client>) {
    forall i, j :: 0 <= i < j < |clients| ==> clients[i].id != clients[j].id
  }

  predicate Concerns(e: Event, clients: seq<Client>, i: nat)
    requires i < |clients|
  {
    e == Timeout(i) || e == Message(true, Some(clients[i].id))
  }

  /** The answer of the first event to concern a ping: its client's pong, or its own timer. */
  function Verdict(clients: seq<Client>, events: seq<Event>, i: nat): seq<bool>
    requires i < |clients|
  {
    if events == [] then []
    else
      var earlier := Verdict(clients, events[..|events| - 1], i);
      if earlier == [] && Concerns(events[|events| - 1], clients, i) then [events[|events| - 1].Message?] else earlier
  }

  /** A client is waited for exactly while its ping is unsettled, and the ping settled as the events have it. */
  ghost predicate ExactAt(clients: seq<Client>, s: State, verdict: seq<bool>, i: nat)
    requires i < |clients| == |s.resolved|
  {
    s.resolved[i] == verdict && (clients[i].id in s.pendingPongs <==> verdict == [])
  }

  /** Each client whose timeout came first was reloaded, once, and no other. */
  ghost predicate ReloadsExact(s: State) {
    && (forall i: nat :: i in s.navigated <==> i < |s.resolved| && s.resolved[i] == [false])
    && (forall j, k :: 0 <= j < k < |s.navigated| ==> s.navigated[j] != s.navigated[k])
  }

  lemma NextIsExactAt(clients: seq<Client>, s: State, e: Event, verdict: seq<bool>, i: nat)
    requires DistinctIds(clients) && Sound(clients, s) && i < |clients| && ExactAt(clients, s, verdict, i)
    ensures Sound(clients, Next(clients, s, e))
    ensures ExactAt(clients, Next(clients, s, e),
                    if verdict == [] && Concerns(e, clients, i) then [e.Message?] else verdict, i)
  {
  }

  lemma ResolveIsExact(s: State, ping: nat, responsive: bool)
    requires ReloadsExact(s) && ping < |s.resolved| && s.resolved[ping] == []
    ensures ReloadsExact(Resolve(s, ping, responsive))
  {
    var t := Resolve(s, ping, responsive);
    assert t.resolved[ping] == [responsive] && t.resolved[ping][0] == responsive;
    forall i: nat
      ensures i in t.navigated <==> i < |t.resolved| && t.resolved[i] == [false]
    {
      assert i in t.navigated <==> i in s.navigated || (i == ping && !responsive);
    }
  }

  lemma {:induction false} ExactAlways(clients: seq<Client>, events: seq<Event>)
    requires DistinctIds(clients)
    ensures var s := Play(clients, events);
            && Sound(clients, s) && ReloadsExact(s)
            && forall i :: 0 <= i < |clients| ==> ExactAt(clients, s, Verdict(clients, events, i), i)
  {
    if events == [] {
      StartIsSound(clients);
    } else {
      var earlier, e := events[..|events| - 1], events[|events| - 1];
      ExactAlways(clients, earlier);
      var s := Play(clients, earlier);
      forall i | 0 <= i < |clients|
        ensures ExactAt(clients, Next(clients, s, e), Verdict(clients, events, i), i)
      {
        NextIsExactAt(clients, s, e, Verdict(clients, earlier, i), i);
      }
      PlayIsSound(clients, events);
      match e {
        case Message(isPong, source) =>
          if isPong && source.Some? && source.value in s.pendingPongs {
            var ping := s.pendingPongs[source.value];
            assert ExactAt(clients, s, Verdict(clients, earlier, ping), ping);
            ResolveIsExact(s.(pendingPongs := s.pendingPongs - {source.value}), ping, true);
          }
        case Timeout(ping) =>
          if ping < |clients| && clients[ping].id in s.pendingPongs {
            assert ExactAt(clients, s, Verdict(clients, earlier, ping), ping);
            ResolveIsExact(s.(pendingPongs := s.pendingPongs - {clients[ping].id}), ping, false);
          }
      }
    }
  }

  /**
   Over every interleaving of pongs (late, repeated or foreign ones included) and timeouts: a ping
   is settled at most once, by whichever comes first, its client's pong or its own timeout; a client
   is waited for exactly until then; and exactly the clients whose timeout came first are reloaded.
   */
  lemma EachPingSettlesOnce(clients: seq<Client>, events: seq<Event>, i: nat)
    requires DistinctIds(clients) && i < |clients|
    ensures var s, verdict := Play(clients, events), Verdict(clients, events, i);
            && |s.resolved| == |clients| && s.resolved[i] == verdict && |verdict| <= 1
            && (clients[i].id in s.pendingPongs <==> verdict == [])
            && (i in s.navigated <==> verdict == [false])
            && multiset(s.navigated)[i] <= 1
  {
    ExactAlways(clients, events);
    VerdictIsOne(clients, events, i);
    OnceIn(Play(clients, events).navigated, i);
  }

  lemma {:induction false} VerdictIsOne(clients: seq<Client>, events: seq<Event>, i: nat)
    requires i < |clients|
    ensures |Verdict(clients, events, i)| <= 1
    ensures Verdict(clients, events, i) == [] <==> forall k :: 0 <= k < |events| ==> !Concerns(events[k], clients, i)
  {
    if events != [] {
      VerdictIsOne(clients, events[..|events| - 1], i);
      assert forall k :: 0 <= k < |events| - 1 ==> events[..|events| - 1][k] == events[k];
      if Verdict(clients, events, i) == [] {
        forall k | 0 <= k < |events|
          ensures !Concerns(events[k], clients, i)
        {
          if k < |events| - 1 {
            assert events[..|events| - 1][k] == events[k];
          }
        }
      }
    }
  }

  lemma {:induction false} OnceIn(s: seq<nat>, x: nat)
    requires forall j, k :: 0 <= j < k < |s| ==> s[j] != s[k]
    ensures multiset(s)[x] <= 1
  {
    if s != [] {
      var init, last := s[..|s| - 1], s[|s| - 1];
      assert s == init + [last];
      OnceIn(init, x);
      if last == x {
        assert x !in init;
      }
    }
  }

  // ---- when the worker's wait ends

  /** Two pings of one client: at most one of them is ever settled. */
  ghost predicate OneOfTwo(s: State, id: ClientId, i: nat, j: nat)
    requires i < |s.resolved| && j < |s.resolved|
  {
    && (s.resolved[i] == [] || s.resolved[j] == [])
    && (id in s.pendingPongs ==> s.resolved[i] == [] && s.resolved[j] == [])
  }

  lemma {:induction false} OneOfTwoSettles(clients: seq<Client>, events: seq<Event>, i: nat, j: nat)
    requires i < j < |clients| && clients[i].id == clients[j].id
    ensures |Play(clients, events).resolved| == |clients| && OneOfTwo(Play(clients, events), clients[i].id, i, j)
  {
    PlayIsSound(clients, events);
    if events == [] {
      StartIsSound(clients);
    } else {
      var earlier := events[..|events| - 1];
      OneOfTwoSettles(clients, earlier, i, j);
      PlayIsSound(clients, earlier);
    }
  }

  ghost predicate AllTimedOut(clients: seq<Client>, events: seq<Event>) {
    forall i: nat :: i < |clients| ==> Timeout(i) in events
  }

  ghost predicate AllSettled(s: State) {
    forall i :: 0 <= i < |s.resolved| ==> |s.resolved[i]| == 1
  }

  /**
   Once every timer has gone off, the worker has stopped waiting for every ping, exactly when no
   two clients share an id; and then nobody is waited for.
   */
  lemma WaitEndsIffIdsAreDistinct(clients: seq<Client>, events: seq<Event>)
    requires AllTimedOut(clients, events)
    ensures AllSettled(Play(clients, events)) <==> DistinctIds(clients)
    ensures DistinctIds(clients) ==> Play(clients, events).pendingPongs == map[]
  {
    var s := Play(clients, events);
    PlayIsSound(clients, events);
    if DistinctIds(clients) {
      ExactAlways(clients, events);
      forall i: nat | i < |clients|
        ensures |s.resolved[i]| == 1 && clients[i].id !in s.pendingPongs
      {
        assert Timeout(i) in events;
        var k :| 0 <= k < |events| && events[k] == Timeout(i);
        assert Concerns(events[k], clients, i);
        VerdictIsOne(clients, events, i);
        assert ExactAt(clients, s, Verdict(clients, events, i), i);
      }
      assert forall id :: id !in s.pendingPongs;
    } else {
      var i: nat, j: nat :| i < j < |clients| && clients[i].id == clients[j].id;
      OneOfTwoSettles(clients, events, i, j);
    }
  }

  /** Two clients under one id: after both timeouts the second ping is still unsettled, and will stay so. */
  lemma SharedIdNeverSettles(id: ClientId)
    ensures var clients := [Client(id, false), Client(id, false)];
            var s := Play(clients, [Timeout(0), Timeout(1)]);
            && AllTimedOut(clients, [Timeout(0), Timeout(1)])
            && s.pendingPongs == map[] && s.resolved == [[false], []] && !AllSettled(s)
  {
    var c := Client(id, false);
    var clients, events := [c, c], [Timeout(0), Timeout(1)];
    assert events[0] == Timeout(0) && events[1] == Timeout(1);
    assert clients[..1] == [c] && [c][..0] == [];
    assert Start([c]) == State(map[id := 0], [[]], []);
    assert Start(clients) == State(map[id := 1], [[], []], []);
    assert events[..1] == [Timeout(0)] && [Timeout(0)][..0] == [];
    var s1 := Play(clients, [Timeout(0)]);
    assert Play(clients, []) == Start(clients);
    assert s1 == Next(clients, Start(clients), Timeout(0));
    assert clients[0].id == id && Start(clients).pendingPongs - {id} == map[];
    var settled := [] + [false];
    assert settled == [false];
    assert s1.resolved == [[], []][0 := settled];
    assert s1.pendingPongs == map[] && s1.resolved == [[false], []];
    assert Play(clients, events) == Next(clients, s1, Timeout(1)) == s1;
    assert s1.resolved[1] == [];
  }
}
