/**
  The session of a client.  It takes exactly the client's steps of the transition system:
  one announcement, and one GenericMessage for every heartbeat it receives.
 */
module Client {
  import opened Protocol

  /** What a call of `RecvMessage` comes to. */
  datatype Arrival = ReplyArrives | HeartbeatArrives | NothingArrives

  /** The message is on its way to the client. */
  predicate OnItsWay(s: State, id: Id, message: Arrival) {
    match message
    case ReplyArrives => id in s.replies
    case HeartbeatArrives => id in s.heartbeats
    case NothingArrives => true
  }

  /** What comes of a message that is offered. */
  function Arriving(s: State, id: Id, offered: Arrival): Arrival {
    if OnItsWay(s, id, offered) then offered else NothingArrives
  }

  /** What an iteration of the loop does; `between` happens between receiving a heartbeat and answering it. */
  function IterationPlan(id: Id, arrival: Arrival, between: seq<Action>): seq<Action> {
    match arrival
    case ReplyArrives => [Outside(DiscardReply(id))]
    case HeartbeatArrives => [Outside(TakeHeartbeat(id))] + between + [Outside(Answer(id))]
    case NothingArrives => []
  }

  /** The state in which iteration `k` of the loop calls `RecvMessage`; the loop starts in `s`. */
  function AtRecv(s: State, id: Id, offers: seq<Arrival>, others: nat -> seq<Action>, between: nat -> seq<Action>,
                  k: nat): State
    requires k <= |offers|
    decreases k, 1
  {
    Exec(AfterLoop(s, id, offers, others, between, k), others(k + 1))
  }

  /** The state after `k` iterations of the loop. */
  function AfterLoop(s: State, id: Id, offers: seq<Arrival>, others: nat -> seq<Action>, between: nat -> seq<Action>,
                     k: nat): State
    requires k <= |offers|
    decreases k, 0
  {
    if k == 0 then s
    else
      var u := AtRecv(s, id, offers, others, between, k - 1);
      Exec(u, IterationPlan(id, Arriving(u, id, offers[k - 1]), between(k - 1)))
  }

  /** In every iteration of the loop the message offered arrives iff it is on its way. */
  ghost predicate AllArrive(s: State, id: Id, offers: seq<Arrival>, arrivals: seq<Arrival>,
                            others: nat -> seq<Action>, between: nat -> seq<Action>)
  {
    && |arrivals| <= |offers|
    && forall k :: 0 <= k < |arrivals|
         ==> arrivals[k] == Arriving(AtRecv(s, id, offers, others, between, k), id, offers[k])
  }

  /** The handshake. */
  function HandshakePlan(id: Id, first: Arrival): seq<Action> {
    match first
    case ReplyArrives => [Outside(AcceptReply(id))]
    case HeartbeatArrives => [Outside(RefuseHeartbeat(id))]
    case NothingArrives => []
  }

  predicate IsOwn(a: Action, id: Id) {
    a.Outside? && a.o.id == id && !a.o.LoseInbound? && !a.o.LoseHeartbeat? && !a.o.LoseReply?
  }

  /** The steps of one client in a run. */
  function Own(run: seq<Action>, id: Id): seq<OutsideAction> {
    if run == [] then []
    else
      var before, last := run[..|run|-1], run[|run|-1];
      if IsOwn(last, id) then Own(before, id) + [last.o] else Own(before, id)
  }

  /** The steps of the heartbeat loop. */
  function LoopSteps(id: Id, arrivals: seq<Arrival>): seq<OutsideAction> {
    if arrivals == [] then []
    else
      LoopSteps(id, arrivals[..|arrivals|-1]) +
      match arrivals[|arrivals|-1]
      case ReplyArrives => [DiscardReply(id)]
      case HeartbeatArrives => [TakeHeartbeat(id), Answer(id)]
      case NothingArrives => []
  }

  /** The steps of a whole session whose handshake comes to `first`. */
  function SessionSteps(id: Id, first: Arrival, arrivals: seq<Arrival>): seq<OutsideAction> {
    match first
    case ReplyArrives => [Connect(id), AcceptReply(id)] + LoopSteps(id, arrivals) + [Stop(id)]
    case HeartbeatArrives => [Connect(id), RefuseHeartbeat(id), Stop(id)]
    case NothingArrives => [Connect(id), Stop(id)]
  }

  lemma OwnSnoc(run: seq<Action>, a: Action, id: Id)
    ensures Own(run + [a], id) == Own(run, id) + if IsOwn(a, id) then [a.o] else []
  {
    assert (run + [a])[..|run|] == run;
  }

  lemma LoopStepsSnoc(id: Id, arrivals: seq<Arrival>, a: Arrival)
    ensures LoopSteps(id, arrivals + [a]) == LoopSteps(id, arrivals) +
      match a
      case ReplyArrives => [DiscardReply(id)]
      case HeartbeatArrives => [TakeHeartbeat(id), Answer(id)]
      case NothingArrives => []
  {
    assert (arrivals + [a])[..|arrivals|] == arrivals;
  }

  /** Steps of the others. */
  ghost predicate Foreign(actions: seq<Action>, id: Id) {
    forall a :: a in actions ==> !IsOwn(a, id)
  }

  /** Whatever else happens leaves a client as it is. */
  lemma OthersSpareClient(s: State, a: Action, id: Id)
    requires Enabled(s, a) && !IsOwn(a, id) && id in s.clients
    ensures id in Effect(s, a).clients && Effect(s, a).clients[id] == s.clients[id]
  {
  }

  class NetWatchdogClient {
    const identity: Id
    var model: State  // the system this client is part of
    ghost var start: State
    ghost var run: seq<Action>

    constructor (identity: Id, model: State)
      ensures this.identity == identity && this.model == model
    {
      this.identity, this.model := identity, model;
      start, run := model, [];
    }

    /** The session so far, of which `own` are the client's steps and which leaves it as `now`. */
    ghost predicate Session(own: seq<OutsideAction>, now: Client)
      reads this
    {
      && Runs(start, run, model) && Own(run, identity) == own
      && identity in model.clients && model.clients[identity] == now
    }

    /** One step of the client. */
    method Take(o: OutsideAction)
      requires IsOwn(Outside(o), identity) && Runs(start, run, model) && OutsideEnabled(model, o)
      modifies this
      ensures Runs(start, run, model) && start == old(start)
      ensures Own(run, identity) == Own(old(run), identity) + [o]
      ensures model == OutsideEffect(old(model), o)
    {
      RunsSnoc(start, run, model, Outside(o));
      OwnSnoc(run, Outside(o), identity);
      model := OutsideEffect(model, o);
      run := run + [Outside(o)];
    }

    /** A step of another party. */
    method LetEnabled(a: Action, ghost own: seq<OutsideAction>, ghost now: Client)
      requires Session(own, now) && !IsOwn(a, identity) && Enabled(model, a)
      modifies this
      ensures Session(own, now) && start == old(start) && model == Effect(old(model), a)
    {
      RunsSnoc(start, run, model, a);
      OwnSnoc(run, a, identity);
      OthersSpareClient(model, a, identity);
      model := Effect(model, a);
      run := run + [a];
    }

    /** A step of another party, if it is enabled. */
    method Let(a: Action, ghost own: seq<OutsideAction>, ghost now: Client)
      requires Session(own, now) && !IsOwn(a, identity)
      modifies this
      ensures Session(own, now) && start == old(start) && model == Step(old(model), a)
    {
      if Enabled(model, a) {
        LetEnabled(a, own, now);
      }
    }

    /** Meanwhile the enabled ones among these steps of the others happen. */
    method Wait(others: seq<Action>, ghost own: seq<OutsideAction>, ghost now: Client)
      requires Session(own, now) && Foreign(others, identity)
      modifies this
      ensures Session(own, now) && start == old(start) && model == Exec(old(model), others)
    {
      for i := 0 to |others|
        invariant Session(own, now) && start == old(start) && model == Exec(old(model), others[..i])
      {
        assert others[i] in others;
        ExecIs(old(model), others[..i + 1], others[..i], others[i]);
        Let(others[i], own, now);
      }
      assert others[..|others|] == others;
    }

    /** `RecvMessage`: what is offered arrives if it is on its way to this client. */
    method Recv(offered: Arrival) returns (arrival: Arrival)
      ensures arrival == Arriving(model, identity, offered)
      ensures arrival == ReplyArrives <==> offered == ReplyArrives && identity in model.replies
      ensures arrival == HeartbeatArrives <==> offered == HeartbeatArrives && identity in model.heartbeats
    {
      arrival := offered;
      if (offered == ReplyArrives && identity !in model.replies)
         || (offered == HeartbeatArrives && identity !in model.heartbeats) {
        arrival := NothingArrives;
      }
    }

    /** A step of the client, as a run of its own. */
    method TakeAlone(o: OutsideAction)
      requires IsOwn(Outside(o), identity) && Runs(start, run, model) && OutsideEnabled(model, o)
      modifies this
      ensures Runs(start, run, model) && start == old(start)
      ensures Own(run, identity) == Own(old(run), identity) + [o]
      ensures model == OutsideEffect(old(model), o) && model == Exec(old(model), [Outside(o)])
    {
      ExecIs(model, [Outside(o)], [], Outside(o));
      Take(o);
    }

    /** A heartbeat is received and, whatever the others do meanwhile, answered. */
    method AnswerHeartbeat(between: seq<Action>, ghost own: seq<OutsideAction>)
      requires Session(own, Listening) && identity in model.heartbeats
      requires Foreign(between, identity)
      modifies this
      ensures Session(own + [TakeHeartbeat(identity), Answer(identity)], Listening) && start == old(start)
      ensures model == Exec(old(model), IterationPlan(identity, HeartbeatArrives, between))
    {
      TakeAlone(TakeHeartbeat(identity));
      Wait(between, own + [TakeHeartbeat(identity)], Replying);
      ExecConcat(old(model), [Outside(TakeHeartbeat(identity))], between);
      ExecSnoc(old(model), [Outside(TakeHeartbeat(identity))] + between, Outside(Answer(identity)));
      Take(Answer(identity));
      assert own + [TakeHeartbeat(identity)] + [Answer(identity)]
          == own + [TakeHeartbeat(identity), Answer(identity)];
    }

    /** A late reply is dropped. */
    method DropReply(ghost own: seq<OutsideAction>)
      requires Session(own, Listening) && identity in model.replies
      modifies this
      ensures Session(own + [DiscardReply(identity)], Listening) && start == old(start)
      ensures model == Exec(old(model), [Outside(DiscardReply(identity))])
    {
      TakeAlone(DiscardReply(identity));
    }

    /** One iteration of the heartbeat loop; `between` happens between receiving and sending. */
    method Listen(offered: Arrival, between: seq<Action>, ghost own: seq<OutsideAction>, ghost arrivals: seq<Arrival>)
      returns (arrival: Arrival)
      requires Session(own + LoopSteps(identity, arrivals), Listening)
      requires Foreign(between, identity)
      modifies this
      ensures Session(own + LoopSteps(identity, arrivals + [arrival]), Listening) && start == old(start)
      ensures arrival == Arriving(old(model), identity, offered)
      ensures model == Exec(old(model), IterationPlan(identity, arrival, between))
    {
      arrival := Recv(offered);
      LoopStepsSnoc(identity, arrivals, arrival);
      if arrival == HeartbeatArrives {
        AnswerHeartbeat(between, own + LoopSteps(identity, arrivals));
        assert own + LoopSteps(identity, arrivals + [arrival])
            == own + LoopSteps(identity, arrivals) + [TakeHeartbeat(identity), Answer(identity)];
      } else if arrival == ReplyArrives {
        DropReply(own + LoopSteps(identity, arrivals));
        assert own + LoopSteps(identity, arrivals + [arrival])
            == own + LoopSteps(identity, arrivals) + [DiscardReply(identity)];
      } else {
        assert own + LoopSteps(identity, arrivals + [arrival]) == own + LoopSteps(identity, arrivals);
      }
    }

    /** A pause and an iteration. */
    method Iterate(offered: Arrival, others: seq<Action>, between: seq<Action>, ghost own: seq<OutsideAction>,
                   arrivals: seq<Arrival>)
      returns (arrival: Arrival)
      requires Session(own + LoopSteps(identity, arrivals), Listening)
      requires Foreign(others, identity) && Foreign(between, identity)
      modifies this
      ensures start == old(start) && Session(own + LoopSteps(identity, arrivals + [arrival]), Listening)
      ensures var u := Exec(old(model), others);
        arrival == Arriving(u, identity, offered) && model == Exec(u, IterationPlan(identity, arrival, between))
    {
      Wait(others, own + LoopSteps(identity, arrivals), Listening);
      arrival := Listen(offered, between, own, arrivals);
    }

    /** The announcement. */
    method Announce()
      requires run == [] && start == model && identity !in model.clients
      modifies this
      ensures start == old(start) && Session([Connect(identity)], Handshaking)
      ensures model == Step(old(model), Outside(Connect(identity)))
    {
      Take(Connect(identity));
    }

    /** The first `RecvMessage`: a reply is accepted, a heartbeat refused. */
    method Handshake(reply: Arrival) returns (first: Arrival)
      requires Session([Connect(identity)], Handshaking)
      modifies this
      ensures start == old(start)
      ensures first == ReplyArrives ==> Session([Connect(identity), AcceptReply(identity)], Listening)
      ensures first == HeartbeatArrives ==> Session([Connect(identity), RefuseHeartbeat(identity)], Stopped)
      ensures first == NothingArrives ==> Session([Connect(identity)], Handshaking)
      ensures first == Arriving(old(model), identity, reply)
      ensures model == Exec(old(model), HandshakePlan(identity, first))
    {
      first := Recv(reply);
      if first == ReplyArrives {
        TakeAlone(AcceptReply(identity));
      } else if first == HeartbeatArrives {
        TakeAlone(RefuseHeartbeat(identity));
      }
    }

    /** The socket is closed. */
    method Close(others: seq<Action>, ghost own: seq<OutsideAction>, ghost now: Client)
      requires Session(own, now) && Foreign(others, identity)
      modifies this
      ensures start == old(start) && Session(own + [Stop(identity)], Stopped)
      ensures model == Exec(old(model), others + [Outside(Stop(identity))])
    {
      ExecSnoc(model, others, Outside(Stop(identity)));
      Wait(others, own, now);
      Take(Stop(identity));
    }

    /** The loop so far. */
    ghost predicate Looping(s: State, own: seq<OutsideAction>, offers: seq<Arrival>, arrivals: seq<Arrival>,
                            others: nat -> seq<Action>, between: nat -> seq<Action>)
      reads this
    {
      && Session(own + LoopSteps(identity, arrivals), Listening)
      && AllArrive(s, identity, offers, arrivals, others, between)
      && model == AfterLoop(s, identity, offers, others, between, |arrivals|)
    }

    /** Iteration `|arrivals|` of the loop. */
    method Continue(ghost s: State, ghost own: seq<OutsideAction>, offers: seq<Arrival>, arrivals: seq<Arrival>,
                    others: nat -> seq<Action>, between: nat -> seq<Action>)
      returns (more: seq<Arrival>)
      requires Looping(s, own, offers, arrivals, others, between) && |arrivals| < |offers|
      requires forall k :: Foreign(others(k), identity) && Foreign(between(k), identity)
      modifies this
      ensures start == old(start) && Looping(s, own, offers, more, others, between) && |more| == |arrivals| + 1
    {
      var k := |arrivals|;
      assert AtRecv(s, identity, offers, others, between, k) == Exec(model, others(k + 1));
      var arrival := Iterate(offers[k], others(k + 1), between(k), own, arrivals);
      more := arrivals + [arrival];
    }

    /** One iteration for each offer; in each the message offered arrives iff it is on its way. */
    method HeartbeatLoop(offers: seq<Arrival>, others: nat -> seq<Action>, between: nat -> seq<Action>)
      returns (arrivals: seq<Arrival>)
      requires Session([Connect(identity), AcceptReply(identity)], Listening)
      requires forall k :: Foreign(others(k), identity) && Foreign(between(k), identity)
      modifies this
      ensures start == old(start)
      ensures Session([Connect(identity), AcceptReply(identity)] + LoopSteps(identity, arrivals), Listening)
      ensures |arrivals| == |offers| && AllArrive(old(model), identity, offers, arrivals, others, between)
      ensures model == AfterLoop(old(model), identity, offers, others, between, |offers|)
    {
      ghost var own := [Connect(identity), AcceptReply(identity)];
      arrivals := [];
      assert own + LoopSteps(identity, []) == own;
      for k := 0 to |offers|
        invariant start == old(start) && |arrivals| == k
        invariant Looping(old(model), own, offers, arrivals, others, between)
      {
        arrivals := Continue(old(model), own, offers, arrivals, others, between);
      }
    }

    /**
      The session: `reply` is offered at the handshake and `offers[k]` in iteration k of the
      loop, which ends when `m_ShouldContinue` is cleared.  `others(k)` happens ahead of call k of
      `RecvMessage`, `between(k)` ahead of the answer in iteration k, `closing` ahead of the end.  What is
      offered arrives iff it is on its way when the call is made.
     */
    method RunSession(reply: Arrival, offers: seq<Arrival>, others: nat -> seq<Action>, between: nat -> seq<Action>,
                      closing: seq<Action>)
      returns (first: Arrival, arrivals: seq<Arrival>)
      requires run == [] && start == model && identity !in model.clients
      requires forall k :: Foreign(others(k), identity) && Foreign(between(k), identity)
      requires Foreign(closing, identity)
      modifies this
      ensures start == old(start)
      ensures Session(SessionSteps(identity, first, arrivals), Stopped)
      ensures
        var u := Exec(Step(old(model), Outside(Connect(identity))), others(0));
        var v := Exec(u, HandshakePlan(identity, first));
        && first == Arriving(u, identity, reply)
        && (if first == ReplyArrives
            then |arrivals| == |offers| && AllArrive(v, identity, offers, arrivals, others, between)
            else arrivals == [])
        && model == Exec(AfterLoop(v, identity, offers, others, between, |arrivals|),
                         closing + [Outside(Stop(identity))])
    {
      ghost var opening := [Connect(identity), AcceptReply(identity)];
      arrivals := [];
      Announce();
      Wait(others(0), [Connect(identity)], Handshaking);
      first := Handshake(reply);
      match first
      case ReplyArrives =>
        arrivals := HeartbeatLoop(offers, others, between);
        Close(closing, opening + LoopSteps(identity, arrivals), Listening);
      case HeartbeatArrives =>
        Close(closing, [Connect(identity), RefuseHeartbeat(identity)], Stopped);
        assert SessionSteps(identity, first, arrivals)
            == [Connect(identity), RefuseHeartbeat(identity)] + [Stop(identity)];
      case NothingArrives =>
        Close(closing, [Connect(identity)], Handshaking);
        assert SessionSteps(identity, first, arrivals) == [Connect(identity)] + [Stop(identity)];
    }
  }

  // ---------------------------------------------------------------- what a session sends

  /** The GenericMessages that the steps send. */
  function Sent(steps: seq<OutsideAction>): nat {
    if steps == [] then 0
    else Sent(steps[..|steps|-1]) + (if steps[|steps|-1].Connect? || steps[|steps|-1].Answer? then 1 else 0)
  }

  lemma {:induction false} SentConcat(a: seq<OutsideAction>, b: seq<OutsideAction>)
    ensures Sent(a + b) == Sent(a) + Sent(b)
    decreases |b|
  {
    if b == [] {
      assert a + b == a;
    } else {
      assert (a + b)[..|a + b|-1] == a + b[..|b|-1];
      SentConcat(a, b[..|b|-1]);
    }
  }

  lemma {:induction false} SentInLoop(id: Id, arrivals: seq<Arrival>)
    ensures Sent(LoopSteps(id, arrivals)) == multiset(arrivals)[HeartbeatArrives]
  {
    if arrivals != [] {
      var rest, last := arrivals[..|arrivals|-1], arrivals[|arrivals|-1];
      assert arrivals == rest + [last];
      SentInLoop(id, rest);
      LoopStepsSnoc(id, rest, last);
      var more := match last
        case ReplyArrives => [DiscardReply(id)]
        case HeartbeatArrives => [TakeHeartbeat(id), Answer(id)]
        case NothingArrives => [];
      SentConcat(LoopSteps(id, rest), more);
      assert Sent([TakeHeartbeat(id), Answer(id)]) == 1 by {
        SentConcat([TakeHeartbeat(id)], [Answer(id)]);
        assert [TakeHeartbeat(id)] + [Answer(id)] == [TakeHeartbeat(id), Answer(id)];
      }
    }
  }

  /** A session sends one message for the announcement and then one for each heartbeat; none without a handshake. */
  lemma OneMessagePerHeartbeat(id: Id, first: Arrival, arrivals: seq<Arrival>)
    ensures Sent(SessionSteps(id, first, arrivals))
      == 1 + if first == ReplyArrives then multiset(arrivals)[HeartbeatArrives] else 0
  {
    if first == ReplyArrives {
      var opening, loop := [Connect(id), AcceptReply(id)], LoopSteps(id, arrivals);
      SentInLoop(id, arrivals);
      SentConcat(opening + loop, [Stop(id)]);
      SentConcat(opening, loop);
      SentConcat([Connect(id)], [AcceptReply(id)]);
      assert [Connect(id)] + [AcceptReply(id)] == opening;
    } else if first == HeartbeatArrives {
      SentConcat([Connect(id)], [RefuseHeartbeat(id), Stop(id)]);
      SentConcat([RefuseHeartbeat(id)], [Stop(id)]);
      assert [RefuseHeartbeat(id)] + [Stop(id)] == [RefuseHeartbeat(id), Stop(id)];
      assert [Connect(id)] + [RefuseHeartbeat(id), Stop(id)] == SessionSteps(id, first, arrivals);
    } else {
      SentConcat([Connect(id)], [Stop(id)]);
      assert [Connect(id)] + [Stop(id)] == SessionSteps(id, first, arrivals);
    }
  }
}
