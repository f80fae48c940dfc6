/**
  The race that the discipline of module Alternation rules out: one healthy client, no message
  lost, and the server logs it as disconnected while it stays in the connected list.
 */
module Race {
  import opened Protocol
  import opened Alternation
  import opened Schedules

  /** The log that has these entries of one client. */
  function Log(x: Id, kinds: seq<Kind>): seq<Entry> {
    if kinds == [] then [] else Log(x, kinds[..|kinds|-1]) + [Entry(x, kinds[|kinds|-1])]
  }

  lemma LogSnoc(x: Id, kinds: seq<Kind>, k: Kind)
    ensures Log(x, kinds + [k]) == Log(x, kinds) + [Entry(x, k)]
  {
    assert (kinds + [k])[..|kinds|] == kinds;
  }

  lemma {:induction false} LogOfLog(x: Id, kinds: seq<Kind>, id: Id)
    ensures LogOf(Log(x, kinds), id) == if id == x then kinds else []
  {
    if kinds != [] {
      var rest, k := kinds[..|kinds|-1], kinds[|kinds|-1];
      LogOfLog(x, rest, id);
      LogOfSnoc(Log(x, rest), Entry(x, k), id);
    }
  }

  /** A server that knows one client, with nothing in flight. */
  function Quiet(x: Id, kinds: seq<Kind>): State {
    Calm(map[x := Listening], [x], Log(x, kinds))
  }

  /** A round over that client alone. */
  function InRound(x: Id, kinds: seq<Kind>, monitor: Monitor): State {
    Quiet(x, kinds).(monitor := monitor, connected := [], previous := [x])
  }

  /** The receive thread holds the client's message, which has been checked. */
  function Handled(x: Id, kinds: seq<Kind>): State {
    Quiet(x, kinds).(receiver := Checked(x), connected := [])
  }

  /** The harvest has overtaken the client's answer. */
  function Overtaken(x: Id): State {
    InRound(x, [Connection], Harvested({})).(receiver := Checked(x))
  }

  lemma FirstJoin(x: Id) returns (run: seq<Action>)
    ensures AllLossless(run) && Runs(Init, run, Quiet(x, [Connection]))
  {
    LogSnoc(x, [], Connection);
    assert [] + [Connection] == [Connection] && [] + [x] == [x];
    assert map[][x := Listening] == map[x := Listening];
    run := Joined(map[], [], [], x);
  }

  /** A disconnect elsewhere starts a round. */
  lemma Asked(x: Id, kinds: seq<Kind>) returns (run: seq<Action>)
    ensures AllLossless(run) && Runs(Quiet(x, kinds), run, InRound(x, kinds, Waiting).(heartbeats := multiset{x}))
  {
    run := Three(Quiet(x, kinds), Mon(StartRound(true)), InRound(x, kinds, Sending(0)),
                 Mon(SendHeartbeat(x, true)), InRound(x, kinds, Sending(1)).(heartbeats := multiset{x}),
                 Mon(BeginWait), InRound(x, kinds, Waiting).(heartbeats := multiset{x}));
  }

  /** The client answers, too late for the wait. */
  lemma LeftAndAnswered(x: Id, kinds: seq<Kind>) returns (run: seq<Action>)
    ensures AllLossless(run)
    ensures Runs(InRound(x, kinds, Waiting).(heartbeats := multiset{x}), run,
                 InRound(x, kinds, Leaving(true)).(inbound := multiset{x}))
  {
    var s := InRound(x, kinds, Leaving(true));
    run := Three(InRound(x, kinds, Waiting).(heartbeats := multiset{x}),
                 Mon(EndWait(true)), s.(heartbeats := multiset{x}),
                 Outside(TakeHeartbeat(x)), s.(clients := map[x := Replying]),
                 Outside(Answer(x)), s.(inbound := multiset{x}));
  }

  /** The answer is checked before the harvest and not pushed yet. */
  lemma AnswerOvertaken(x: Id) returns (run: seq<Action>)
    ensures AllLossless(run)
    ensures Runs(InRound(x, [Connection], Leaving(true)).(inbound := multiset{x}), run, Overtaken(x))
  {
    var s := InRound(x, [Connection], Leaving(true));
    assert Elements<Id>([]) == {};
    run := Three(s.(inbound := multiset{x}), Rx(Receive(x)), s.(receiver := Received(x)),
                 Rx(Check(x, true)), s.(receiver := Checked(x)), Mon(Harvest), Overtaken(x));
  }

  lemma NothingSeen(x: Id)
    ensures Without([x], {}) == [x]
  {
    assert [x][..0] == [];
    assert Without([x][..0], {}) == [];
  }

  lemma Reported(x: Id) returns (run: seq<Action>)
    ensures AllLossless(run) && Runs(Overtaken(x), run, Handled(x, [Connection, Disconnection]))
  {
    var kinds := [Connection, Disconnection];
    NothingSeen(x);
    LogSnoc(x, [Connection], Disconnection);
    assert [Connection] + [Disconnection] == kinds;
    run := Three(Overtaken(x), Mon(Erase), InRound(x, [Connection], Reporting(0)).(receiver := Checked(x)),
                 Mon(Report(x)), InRound(x, kinds, Reporting(1)).(receiver := Checked(x)),
                 Mon(EndRound), Handled(x, kinds));
  }

  /** A client that listens is pushed and discards the reply. */
  lemma Pushed(x: Id, kinds: seq<Kind>) returns (run: seq<Action>)
    ensures AllLossless(run) && Runs(Handled(x, kinds), run, Quiet(x, kinds))
  {
    run := Three(Handled(x, kinds), Rx(Register(x)), Quiet(x, kinds).(receiver := Registered(x)),
                 Rx(Reply(x)), Quiet(x, kinds).(replies := multiset{x}),
                 Outside(DiscardReply(x)), Quiet(x, kinds));
  }

  lemma RunUpToHarvest(x: Id) returns (run: seq<Action>)
    ensures AllLossless(run) && Runs(Init, run, Overtaken(x))
  {
    var known, asked := Quiet(x, [Connection]), InRound(x, [Connection], Waiting).(heartbeats := multiset{x});
    var answered := InRound(x, [Connection], Leaving(true)).(inbound := multiset{x});
    run := FirstJoin(x);
    var more := Asked(x, [Connection]);
    run := Then(Init, run, known, more, asked);
    more := LeftAndAnswered(x, [Connection]);
    run := Then(Init, run, asked, more, answered);
    more := AnswerOvertaken(x);
    run := Then(Init, run, answered, more, Overtaken(x));
  }

  lemma RunRace(x: Id) returns (run: seq<Action>)
    ensures AllLossless(run) && Runs(Init, run, Quiet(x, [Connection, Disconnection]))
  {
    var handled := Handled(x, [Connection, Disconnection]);
    run := RunUpToHarvest(x);
    var more := Reported(x);
    run := Then(Init, run, Overtaken(x), more, handled);
    more := Pushed(x, [Connection, Disconnection]);
    run := Then(Init, run, handled, more, Quiet(x, [Connection, Disconnection]));
  }

  /**
    Without the discipline the log is wrong: there is a run, each step of which can be taken, in which no
    message is lost and no client stops, after which the client listens and is in the
    connected list, nothing is in flight, and its log ends in Disconnection.
   */
  lemma {:induction false} LiveClientLoggedAsGone(x: Id) returns (run: seq<Action>)
    ensures Legal(Init, run) && AllLossless(run)
    ensures Exec(Init, run) == Quiet(x, [Connection, Disconnection])
    ensures LogOf(Exec(Init, run).log, x) == [Connection, Disconnection]
    ensures !Consistent(Exec(Init, run))
  {
    run := RunRace(x);
    LogOfLog(x, [Connection, Disconnection], x);
    assert !ConsistentFor(Quiet(x, [Connection, Disconnection]), x);
  }

  lemma AgreesWhenOvertaken(x: Id, id: Id)
    ensures Agrees(Overtaken(x), id)
  {
    LogOfLog(x, [Connection], id);
  }

  lemma DoomedWhenOvertaken(x: Id)
    ensures !Consistent(Overtaken(x))
  {
    assert Doomed(Overtaken(x), x) && !ConsistentFor(Overtaken(x), x);
  }

  /**
    In the middle of a round agreement is not enough: after this run, which has a hazard, the logs of all
    identities alternate and agree with the record, although the wrong entry is already certain.
   */
  lemma {:induction false} AgreementCanEnd(x: Id) returns (run: seq<Action>)
    ensures Legal(Init, run) && !HazardFree(run)
    ensures forall id :: Agrees(Exec(Init, run), id)
  {
    run := RunUpToHarvest(x);
    forall id ensures Agrees(Overtaken(x), id) {
      AgreesWhenOvertaken(x, id);
    }
    assert !HazardFree(run) by {
      DoomedWhenOvertaken(x);
      ConsistentIffHazardFree(run);
    }
  }
}
