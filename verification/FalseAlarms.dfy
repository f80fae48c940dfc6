/** Rounds that leave their wait by the count and report a live client, without any hazard. */
module FalseAlarms {
  import opened Protocol
  import opened Alternation
  import opened Rounds
  import opened Losses
  import opened Detection
  import opened Schedules
  import opened Race

  /** The run that has this past and this round in it. */
  function WholeRun(past: seq<Action>, round: seq<Action>, after: seq<Action>): seq<Action> {
    past + [Mon(StartRound(true))] + round + after
  }

  lemma RunWhole(past: seq<Action>, s: State, round: seq<Action>, t: State, after: seq<Action>, u: State)
    requires Runs(Init, past, s) && s.monitor.Idle? && Runs(Begin(s), round, t) && Runs(t, after, u)
    ensures Runs(Init, WholeRun(past, round, after), u)
    ensures AllLossless(past) && AllLossless(round) && AllLossless(after) ==> AllLossless(WholeRun(past, round, after))
  {
    var start := One(s, Mon(StartRound(true)), Begin(s));
    RunsSnoc(Init, past, s, Mon(StartRound(true)));
    var begun := past + [Mon(StartRound(true))];
    assert AllLossless(past) ==> AllLossless(begun);
    var run := Then(Init, begun, Begin(s), round, t);
    run := Then(Init, run, t, after, u);
  }

  /** A round in its last state: its reports are the snapshot that is left, and it has seen no one but the connected. */
  lemma ReadOff(s: State, round: seq<Action>, t: State)
    requires s.monitor.Idle? && Runs(Begin(s), round, t) && Mon(EndRound) !in round
    requires t.monitor == Reporting(|t.previous|)
    ensures CompleteRound(s, round) && AtEnd(s, round) == t
    ensures Reports(round) == t.previous && SeenAtHarvest(round) <= t.connected
  {
    RoundInvHolds(s, round);
    assert t.previous[..|t.previous|] == t.previous;
  }

  // ---------------------------------------------------------------- nobody was lost

  /** The last state of the round: the client's heartbeat is on its way. */
  function HastyEnd(x: Id): State {
    InRound(x, [Connection, Disconnection], Reporting(1)).(heartbeats := multiset{x})
  }

  lemma HastyWait(x: Id) returns (run: seq<Action>)
    ensures AllLossless(run) && LeftByCount(run) && Mon(EndRound) !in run
    ensures Runs(InRound(x, [Connection], Sending(0)), run,
                 InRound(x, [Connection], Leaving(true)).(heartbeats := multiset{x}))
  {
    run := Three(InRound(x, [Connection], Sending(0)),
                 Mon(SendHeartbeat(x, true)), InRound(x, [Connection], Sending(1)).(heartbeats := multiset{x}),
                 Mon(BeginWait), InRound(x, [Connection], Waiting).(heartbeats := multiset{x}),
                 Mon(EndWait(true)), InRound(x, [Connection], Leaving(true)).(heartbeats := multiset{x}));
  }

  lemma HastyReport(x: Id) returns (run: seq<Action>)
    ensures AllLossless(run) && Mon(EndRound) !in run
    ensures Runs(InRound(x, [Connection], Leaving(true)).(heartbeats := multiset{x}), run, HastyEnd(x))
  {
    var s := InRound(x, [Connection], Leaving(true)).(heartbeats := multiset{x});
    NothingSeen(x);
    LogSnoc(x, [Connection], Disconnection);
    assert Elements<Id>([]) == {} && [Connection] + [Disconnection] == [Connection, Disconnection];
    run := Three(s, Mon(Harvest), s.(monitor := Harvested({})), Mon(Erase), s.(monitor := Reporting(0)),
                 Mon(Report(x)), HastyEnd(x));
  }

  /** A snapshot of one, so no arrival is waited for. */
  lemma HastyRound(x: Id) returns (run: seq<Action>)
    ensures AllLossless(run) && LeftByCount(run) && Mon(EndRound) !in run
    ensures Runs(Begin(Quiet(x, [Connection])), run, HastyEnd(x))
  {
    var wait := HastyWait(x);
    var report := HastyReport(x);
    assert Begin(Quiet(x, [Connection])) == InRound(x, [Connection], Sending(0));
    run := Then(Begin(Quiet(x, [Connection])), wait,
                InRound(x, [Connection], Leaving(true)).(heartbeats := multiset{x}), report, HastyEnd(x));
  }

  lemma LateAnswer(x: Id) returns (run: seq<Action>)
    ensures AllLossless(run)
    ensures Runs(HastyEnd(x), run, Quiet(x, [Connection, Disconnection]).(connected := [], inbound := multiset{x}))
  {
    var idle := Quiet(x, [Connection, Disconnection]).(connected := []);
    var end := One(HastyEnd(x), Mon(EndRound), idle.(heartbeats := multiset{x}));
    var answer := Two(idle.(heartbeats := multiset{x}), Outside(TakeHeartbeat(x)), idle.(clients := map[x := Replying]),
                      Outside(Answer(x)), idle.(inbound := multiset{x}));
    run := Then(HastyEnd(x), end, idle.(heartbeats := multiset{x}), answer, idle.(inbound := multiset{x}));
  }

  lemma LateReceipt(x: Id) returns (run: seq<Action>)
    ensures AllLossless(run)
    ensures Runs(Quiet(x, [Connection, Disconnection]).(connected := [], inbound := multiset{x}), run,
                 Handled(x, [Connection, Disconnection, Connection]))
  {
    var idle := Quiet(x, [Connection, Disconnection]).(connected := []);
    LogSnoc(x, [Connection, Disconnection], Connection);
    assert [Connection, Disconnection] + [Connection] == [Connection, Disconnection, Connection];
    run := Two(idle.(inbound := multiset{x}), Rx(Receive(x)), idle.(receiver := Received(x)),
               Rx(Check(x, true)), Handled(x, [Connection, Disconnection, Connection]));
  }

  lemma AfterHasty(x: Id) returns (run: seq<Action>)
    ensures AllLossless(run) && Runs(HastyEnd(x), run, Quiet(x, [Connection, Disconnection, Connection]))
  {
    var answered := Quiet(x, [Connection, Disconnection]).(connected := [], inbound := multiset{x});
    var handled := Handled(x, [Connection, Disconnection, Connection]);
    run := LateAnswer(x);
    var more := LateReceipt(x);
    run := Then(HastyEnd(x), run, answered, more, handled);
    more := Pushed(x, [Connection, Disconnection, Connection]);
    run := Then(HastyEnd(x), run, handled, more, Quiet(x, [Connection, Disconnection, Connection]));
  }

  lemma AgreesBy(s: State, id: Id, kinds: seq<Kind>)
    requires LogOf(s.log, id) == kinds
    requires Alternates(kinds) && (LastIsConnection(kinds) <==> OnRecord(s, id))
    ensures Agrees(s, id)
  {
  }

  lemma QuietAgrees(x: Id, id: Id)
    ensures Agrees(Quiet(x, [Connection, Disconnection, Connection]), id)
  {
    var kinds := [Connection, Disconnection, Connection];
    LogOfLog(x, kinds, id);
    if id == x {
      AgreesBy(Quiet(x, kinds), id, kinds);
    } else {
      AgreesBy(Quiet(x, kinds), id, []);
    }
  }

  lemma QuietIsHazardFree(x: Id, run: seq<Action>)
    requires Exec(Init, run) == Quiet(x, [Connection, Disconnection, Connection])
    ensures HazardFree(run)
  {
    forall id ensures Agrees(Exec(Init, run), id) {
      QuietAgrees(x, id);
    }
    AgreementIffHazardFree(run);
  }

  lemma HastyEndIsLive(x: Id)
    ensures !Lost(HastyEnd(x), x)
  {
  }

  /**
    A live client is reported although nobody is lost: no step is a hazard, no message is lost and no
    client stops, only snapshot members are seen, the wait ends by the count.  The
    answer arrives after the round, and the log has a Disconnection too many.
   */
  lemma {:induction false} NobodyLostButReported(x: Id)
    returns (past: seq<Action>, round: seq<Action>, after: seq<Action>)
    ensures var run := WholeRun(past, round, after);
      && Legal(Init, run) && HazardFree(run) && AllLossless(run)
      && Exec(Init, run) == Quiet(x, [Connection, Disconnection, Connection])
    ensures var s := Exec(Init, past);
      && CompleteRound(s, round) && LeftByCount(round) && NoNewcomers(s, round)
      && Reports(round) == [x] && !Lost(AtEnd(s, round), x)
  {
    past := FirstJoin(x);
    round := HastyRound(x);
    after := AfterHasty(x);
    RunWhole(past, Quiet(x, [Connection]), round, HastyEnd(x), after,
             Quiet(x, [Connection, Disconnection, Connection]));
    QuietIsHazardFree(x, WholeRun(past, round, after));
    ReadOff(Quiet(x, [Connection]), round, HastyEnd(x));
    HastyEndIsLive(x);
  }

  // ---------------------------------------------------------------- a newcomer is counted

  /** Client a has stopped, b listens; what the newcomer n is up to, if it is there. */
  function Clients(a: Id, b: Id): map<Id, Client> {
    map[a := Stopped, b := Listening]
  }

  function WithNewcomer(a: Id, b: Id, n: Id): map<Id, Client> {
    Clients(a, b)[n := Handshaking]
  }

  function FirstTwo(a: Id, b: Id): seq<Entry> {
    [Entry(a, Connection), Entry(b, Connection)]
  }

  function FirstThree(a: Id, b: Id, n: Id): seq<Entry> {
    FirstTwo(a, b) + [Entry(n, Connection)]
  }

  function BeforeCrowd(a: Id, b: Id): State {
    Calm(Clients(a, b), [a, b], FirstTwo(a, b))
  }

  /** The round over a and b, whose heartbeat is on its way. */
  function Crowded(a: Id, b: Id, monitor: Monitor): State {
    BeforeCrowd(a, b).(heartbeats := multiset{b}, monitor := monitor, connected := [], previous := [a, b])
  }

  /** The newcomer is registered. */
  function InCrowd(a: Id, b: Id, n: Id, monitor: Monitor): State {
    Crowded(a, b, monitor).(clients := WithNewcomer(a, b, n), connected := [n], receiver := Registered(n),
                            log := FirstThree(a, b, n))
  }

  function CrowdedEnd(a: Id, b: Id, n: Id): State {
    InCrowd(a, b, n, Reporting(2)).(log := FirstThree(a, b, n) + [Entry(a, Disconnection)] + [Entry(b, Disconnection)])
  }

  function AfterCrowd(a: Id, b: Id, n: Id): State {
    CrowdedEnd(a, b, n).(monitor := Idle, previous := [])
  }

  lemma BothJoin(a: Id, b: Id) returns (run: seq<Action>)
    requires a != b
    ensures Runs(Init, run, Calm(map[a := Listening, b := Listening], [a, b], FirstTwo(a, b)))
  {
    var first := Joined(map[], [], [], a);
    assert map[][a := Listening] == map[a := Listening] && [] + [a] == [a];
    assert [] + [Entry(a, Connection)] == [Entry(a, Connection)];
    var second := Joined(map[a := Listening], [a], [Entry(a, Connection)], b);
    assert map[a := Listening][b := Listening] == map[a := Listening, b := Listening] && [a] + [b] == [a, b];
    assert [Entry(a, Connection)] + [Entry(b, Connection)] == FirstTwo(a, b);
    run := Then(Init, first, Calm(map[a := Listening], [a], [Entry(a, Connection)]),
                second, Calm(map[a := Listening, b := Listening], [a, b], FirstTwo(a, b)));
  }

  lemma OneStops(a: Id, b: Id) returns (run: seq<Action>)
    requires a != b
    ensures Runs(Init, run, BeforeCrowd(a, b))
  {
    var both := Calm(map[a := Listening, b := Listening], [a, b], FirstTwo(a, b));
    var joined := BothJoin(a, b);
    assert map[a := Listening, b := Listening][a := Stopped] == Clients(a, b);
    var stop := One(both, Outside(Stop(a)), BeforeCrowd(a, b));
    run := Then(Init, joined, both, stop, BeforeCrowd(a, b));
  }

  lemma Told(a: Id, b: Id) returns (run: seq<Action>)
    ensures Mon(EndRound) !in run && Runs(Begin(BeforeCrowd(a, b)), run, Crowded(a, b, Waiting))
  {
    var s := BeforeCrowd(a, b).(connected := [], previous := [a, b]);
    run := Three(Begin(BeforeCrowd(a, b)), Mon(SendHeartbeat(a, false)), s.(monitor := Sending(1)),
                 Mon(SendHeartbeat(b, true)), s.(monitor := Sending(2), heartbeats := multiset{b}),
                 Mon(BeginWait), Crowded(a, b, Waiting));
  }

  lemma NewcomerAnnounced(a: Id, b: Id, n: Id) returns (run: seq<Action>)
    requires n != a && n != b
    ensures Mon(EndRound) !in run
    ensures Runs(Crowded(a, b, Waiting), run,
                 InCrowd(a, b, n, Waiting).(connected := [], receiver := Checked(n)))
  {
    var s := Crowded(a, b, Waiting).(clients := WithNewcomer(a, b, n));
    run := Three(Crowded(a, b, Waiting), Outside(Connect(n)), s.(inbound := multiset{n}),
                 Rx(Receive(n)), s.(receiver := Received(n)),
                 Rx(Check(n, true)), s.(receiver := Checked(n), log := FirstThree(a, b, n)));
  }

  lemma NewcomerCounted(a: Id, b: Id, n: Id) returns (run: seq<Action>)
    ensures Mon(EndRound) !in run && LeftByCount(run)
    ensures Runs(InCrowd(a, b, n, Waiting).(connected := [], receiver := Checked(n)), run,
                 InCrowd(a, b, n, Harvested({n})))
  {
    assert Elements([n]) == {n} && [] + [n] == [n];
    run := Three(InCrowd(a, b, n, Waiting).(connected := [], receiver := Checked(n)),
                 Rx(Register(n)), InCrowd(a, b, n, Waiting), Mon(EndWait(true)), InCrowd(a, b, n, Leaving(true)),
                 Mon(Harvest), InCrowd(a, b, n, Harvested({n})));
  }

  lemma NeitherSeen(a: Id, b: Id, n: Id)
    requires n != a && n != b
    ensures Without([a, b], {n}) == [a, b]
  {
    assert [a, b][..1] == [a] && [a][..0] == [];
    assert Without([a], {n}) == [a];
    assert [a] + [b] == [a, b];
  }

  lemma BothBlamed(a: Id, b: Id, n: Id) returns (run: seq<Action>)
    requires n != a && n != b
    ensures Mon(EndRound) !in run && Runs(InCrowd(a, b, n, Harvested({n})), run, CrowdedEnd(a, b, n))
  {
    var half := InCrowd(a, b, n, Reporting(1)).(log := FirstThree(a, b, n) + [Entry(a, Disconnection)]);
    NeitherSeen(a, b, n);
    run := Three(InCrowd(a, b, n, Harvested({n})), Mon(Erase), InCrowd(a, b, n, Reporting(0)),
                 Mon(Report(a)), half, Mon(Report(b)), CrowdedEnd(a, b, n));
  }

  lemma CrowdedRound(a: Id, b: Id, n: Id) returns (run: seq<Action>)
    requires n != a && n != b
    ensures Mon(EndRound) !in run && LeftByCount(run)
    ensures Runs(Begin(BeforeCrowd(a, b)), run, CrowdedEnd(a, b, n))
  {
    var s, checked := Begin(BeforeCrowd(a, b)), InCrowd(a, b, n, Waiting).(connected := [], receiver := Checked(n));
    run := Told(a, b);
    var more := NewcomerAnnounced(a, b, n);
    run := Then(s, run, Crowded(a, b, Waiting), more, checked);
    more := NewcomerCounted(a, b, n);
    run := Then(s, run, checked, more, InCrowd(a, b, n, Harvested({n})));
    more := BothBlamed(a, b, n);
    run := Then(s, run, InCrowd(a, b, n, Harvested({n})), more, CrowdedEnd(a, b, n));
  }

  lemma TwoEntries(log: seq<Entry>, x: Id, y: Id, kind: Kind, id: Id)
    requires x != y
    ensures LogOf(log + [Entry(x, kind)] + [Entry(y, kind)], id)
         == if id == x || id == y then LogOf(log, id) + [kind] else LogOf(log, id)
  {
    LogOfSnoc(log, Entry(x, kind), id);
    LogOfSnoc(log + [Entry(x, kind)], Entry(y, kind), id);
  }

  lemma FirstTwoLog(a: Id, b: Id, id: Id)
    requires a != b
    ensures LogOf(FirstTwo(a, b), id) == if id == a || id == b then [Connection] else []
  {
    assert FirstTwo(a, b) == [] + [Entry(a, Connection)] + [Entry(b, Connection)];
    TwoEntries([], a, b, Connection, id);
  }

  lemma CrowdLog(a: Id, b: Id, n: Id, id: Id, log: seq<Entry>)
    requires a != b && n != a && n != b && LogOf(log, id) == if id == a || id == b then [Connection] else []
    ensures LogOf(log + [Entry(n, Connection)] + [Entry(a, Disconnection)] + [Entry(b, Disconnection)], id) ==
      if id == a || id == b then [Connection, Disconnection] else if id == n then [Connection] else []
  {
    LogOfSnoc(log, Entry(n, Connection), id);
    TwoEntries(log + [Entry(n, Connection)], a, b, Disconnection, id);
  }

  lemma CrowdAgreesBy(s: State, a: Id, b: Id, n: Id, id: Id)
    requires a != b && n != a && n != b
    requires s.connected == [n] && s.monitor == Idle && s.receiver == Registered(n)
    requires LogOf(s.log, id) ==
      if id == a || id == b then [Connection, Disconnection] else if id == n then [Connection] else []
    ensures Agrees(s, id)
  {
    AgreesBy(s, id, LogOf(s.log, id));
  }

  lemma CrowdAgrees(a: Id, b: Id, n: Id, id: Id)
    requires a != b && n != a && n != b
    ensures Agrees(AfterCrowd(a, b, n), id)
  {
    FirstTwoLog(a, b, id);
    CrowdLog(a, b, n, id, FirstTwo(a, b));
    CrowdAgreesBy(AfterCrowd(a, b, n), a, b, n, id);
  }

  lemma CrowdIsHazardFree(a: Id, b: Id, n: Id, run: seq<Action>)
    requires a != b && n != a && n != b && Exec(Init, run) == AfterCrowd(a, b, n)
    ensures HazardFree(run)
  {
    forall id ensures Agrees(Exec(Init, run), id) {
      CrowdAgrees(a, b, n, id);
    }
    AgreementIffHazardFree(run);
  }

  lemma OneLostOneLive(a: Id, b: Id, n: Id)
    requires a != b && n != a && n != b
    ensures Lost(CrowdedEnd(a, b, n), a) && !Lost(CrowdedEnd(a, b, n), b)
  {
  }

  /**
    With a newcomer not even a genuine loss makes the reports right: a has stopped, n is counted in its stead,
    and b, which listens and has its heartbeat on the way, is reported along with a.
   */
  lemma {:induction false} NewcomerBlamesLiveClient(a: Id, b: Id, n: Id)
    returns (past: seq<Action>, round: seq<Action>, after: seq<Action>)
    requires a != b && n != a && n != b
    ensures Legal(Init, WholeRun(past, round, after)) && HazardFree(WholeRun(past, round, after))
    ensures var s := Exec(Init, past);
      && CompleteRound(s, round) && LeftByCount(round) && Reports(round) == [a, b]
      && Lost(AtEnd(s, round), a) && !Lost(AtEnd(s, round), b)
  {
    past := OneStops(a, b);
    round := CrowdedRound(a, b, n);
    after := One(CrowdedEnd(a, b, n), Mon(EndRound), AfterCrowd(a, b, n));
    RunWhole(past, BeforeCrowd(a, b), round, CrowdedEnd(a, b, n), after, AfterCrowd(a, b, n));
    CrowdIsHazardFree(a, b, n, WholeRun(past, round, after));
    ReadOff(BeforeCrowd(a, b), round, CrowdedEnd(a, b, n));
    OneLostOneLive(a, b, n);
  }
}
