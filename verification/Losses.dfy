/**
  Which clients the server can still hear from.  A client is lost when no continuation of the
  run whatever brings it back into the connected list; here is what that means in the state.
 */
module Losses {
  import opened Protocol
  import opened Tokens

  /** The client has spoken: it is connected, or its message is on the wire or in handling. */
  predicate Speaking(t: State, x: Id) {
    x in t.connected || x in t.inbound || t.receiver == Received(x) || t.receiver == Checked(x)
  }

  /** The client will not answer a heartbeat: it has stopped, or no reply will end its handshake. */
  predicate Deaf(t: State, x: Id) {
    x in t.clients &&
    match t.clients[x]
    case Stopped => true
    case Handshaking => x !in t.replies && t.receiver != Registered(x)
    case _ => false
  }

  /** The client has connected, has not spoken, and has no heartbeat to answer or does not answer it. */
  predicate Lost(t: State, x: Id) {
    x in t.clients && !Speaking(t, x) && (Token(t, x) == 0 || Deaf(t, x))
  }

  // ---------------------------------------------------------------- a lost client stays lost

  lemma SpeakingHasToken(t: State, x: Id)
    requires Speaking(t, x)
    ensures Token(t, x) > 0
  {
  }

  /** A client whose token is gone is lost. */
  lemma TokenGoneIsLost(t: State, x: Id)
    requires x in t.clients && Token(t, x) == 0
    ensures Lost(t, x)
  {
    if Speaking(t, x) {
      SpeakingHasToken(t, x);
    }
  }

  lemma DeafReceiverStep(t: State, r: ReceiverAction, x: Id)
    requires ReceiverEnabled(t, r) && !Speaking(t, x) && Deaf(t, x)
    ensures !Speaking(ReceiverEffect(t, r), x) && Deaf(ReceiverEffect(t, r), x)
  {
  }

  lemma DeafMonitorStep(t: State, m: MonitorAction, x: Id)
    requires MonitorEnabled(t, m) && !Speaking(t, x) && Deaf(t, x)
    ensures !Speaking(MonitorEffect(t, m), x) && Deaf(MonitorEffect(t, m), x)
  {
  }

  lemma DeafOutsideStep(t: State, o: OutsideAction, x: Id)
    requires OutsideEnabled(t, o) && !Speaking(t, x) && Deaf(t, x)
    ensures !Speaking(OutsideEffect(t, o), x) && Deaf(OutsideEffect(t, o), x)
  {
    OutsideFrame(t, o);
    if o.id == x {
      assert !o.Connect? && !o.AcceptReply? && !o.TakeHeartbeat? && !o.Answer?;
    } else {
      assert x in OutsideEffect(t, o).inbound <==> x in t.inbound;
    }
  }

  lemma LostStep(t: State, a: Action, x: Id)
    requires TokenInv(t) && Lost(t, x)
    ensures Lost(Step(t, a), x)
  {
    KnownClientsStep(t, a);
    if Token(t, x) == 0 {
      TokenStep(t, a, x);
      if Speaking(Step(t, a), x) {
        SpeakingHasToken(Step(t, a), x);
      }
    } else if Enabled(t, a) {
      match a
      case Outside(o) => DeafOutsideStep(t, o, x);
      case Rx(r) => DeafReceiverStep(t, r, x);
      case Mon(m) => DeafMonitorStep(t, m, x);
    }
  }

  /** From a reachable state, whatever happens next, a lost client is not heard of again. */
  lemma {:induction false} LostForGood(past: seq<Action>, more: seq<Action>, x: Id)
    requires Lost(Exec(Init, past), x)
    ensures Lost(Exec(Exec(Init, past), more), x) && x !in Exec(Exec(Init, past), more).connected
    decreases |more|
  {
    if more != [] {
      var n := |more| - 1;
      LostForGood(past, more[..n], x);
      ExecConcat(Init, past, more[..n]);
      TokenInvRun(past + more[..n]);
      LostStep(Exec(Exec(Init, past), more[..n]), more[n], x);
    }
  }

  // ---------------------------------------------------------------- any other client can be heard

  /** A continuation after which the client is connected. */
  ghost predicate Heard(t: State, more: seq<Action>, x: Id) {
    Legal(t, more) && x in Exec(t, more).connected
  }

  lemma HeardAfter(t: State, a: Action, more: seq<Action>, x: Id)
    requires Enabled(t, a) && Heard(Effect(t, a), more, x)
    ensures Heard(t, [a] + more, x)
  {
    RunsSnoc(t, [], t, a);
    assert [] + [a] == [a];
    RunsConcat(t, [a], Effect(t, a), more, Exec(Effect(t, a), more));
  }

  /** The steps that the receive thread has left in its loop body. */
  function StepsLeft(r: Receiver): nat {
    match r
    case Ready => 0
    case Received(_) => 3
    case Checked(_) => 2
    case Registered(_) => 1
  }

  function NextStep(r: Receiver): ReceiverAction
    requires r != Ready
  {
    match r
    case Received(y) => Check(y, true)
    case Checked(y) => Register(y)
    case Registered(y) => Reply(y)
  }

  lemma HearHandled(t: State, x: Id) returns (more: seq<Action>)
    requires t.receiver == Received(x) || t.receiver == Checked(x) || x in t.connected
    ensures Heard(t, more, x)
    decreases StepsLeft(t.receiver)
  {
    if x in t.connected {
      return [];
    }
    if t.receiver == Received(x) {
      more := HearHandled(ReceiverEffect(t, Check(x, true)), x);
      HeardAfter(t, Rx(Check(x, true)), more, x);
      more := [Rx(Check(x, true))] + more;
    } else {
      var u := ReceiverEffect(t, Register(x));
      assert u.connected == t.connected + [x];
      assert Heard(u, [], x);
      HeardAfter(t, Rx(Register(x)), [], x);
      more := [Rx(Register(x))] + [];
    }
  }

  lemma {:induction false} HearInbound(t: State, x: Id) returns (more: seq<Action>)
    requires Speaking(t, x)
    ensures Heard(t, more, x)
    decreases StepsLeft(t.receiver)
  {
    if t.receiver == Received(x) || t.receiver == Checked(x) || x in t.connected {
      more := HearHandled(t, x);
    } else if t.receiver == Ready {
      more := HearHandled(ReceiverEffect(t, Receive(x)), x);
      HeardAfter(t, Rx(Receive(x)), more, x);
      more := [Rx(Receive(x))] + more;
    } else {
      var r := NextStep(t.receiver);
      more := HearInbound(ReceiverEffect(t, r), x);
      HeardAfter(t, Rx(r), more, x);
      more := [Rx(r)] + more;
    }
  }

  lemma HearReplying(t: State, x: Id) returns (more: seq<Action>)
    requires x in t.clients && t.clients[x] == Replying
    ensures Heard(t, more, x)
  {
    more := HearInbound(OutsideEffect(t, Answer(x)), x);
    HeardAfter(t, Outside(Answer(x)), more, x);
    more := [Outside(Answer(x))] + more;
  }

  lemma HearListening(t: State, x: Id) returns (more: seq<Action>)
    requires x in t.clients && t.clients[x] == Listening && x in t.heartbeats
    ensures Heard(t, more, x)
  {
    more := HearReplying(OutsideEffect(t, TakeHeartbeat(x)), x);
    HeardAfter(t, Outside(TakeHeartbeat(x)), more, x);
    more := [Outside(TakeHeartbeat(x))] + more;
  }

  lemma HearAsked(t: State, x: Id) returns (more: seq<Action>)
    requires x in t.clients && t.clients[x] != Replying && !Deaf(t, x) && x in t.heartbeats
    ensures Heard(t, more, x)
  {
    if t.clients[x] == Listening {
      more := HearListening(t, x);
    } else if x in t.replies {
      more := HearListening(OutsideEffect(t, AcceptReply(x)), x);
      HeardAfter(t, Outside(AcceptReply(x)), more, x);
      more := [Outside(AcceptReply(x))] + more;
    } else {
      var u := ReceiverEffect(t, Reply(x));
      more := HearListening(OutsideEffect(u, AcceptReply(x)), x);
      HeardAfter(u, Outside(AcceptReply(x)), more, x);
      HeardAfter(t, Rx(Reply(x)), [Outside(AcceptReply(x))] + more, x);
      more := [Rx(Reply(x))] + ([Outside(AcceptReply(x))] + more);
    }
  }

  /** The monitor thread is about to ask: it sends the heartbeats up to this client's. */
  lemma {:induction false} HearToSend(t: State, x: Id) returns (more: seq<Action>)
    requires x in t.clients && t.clients[x] != Replying && !Deaf(t, x)
    requires t.monitor.Sending? && t.monitor.next <= |t.previous| && x in t.previous[t.monitor.next..]
    ensures Heard(t, more, x)
    decreases |t.previous| - t.monitor.next
  {
    var y := t.previous[t.monitor.next];
    var u := MonitorEffect(t, SendHeartbeat(y, true));
    if y == x {
      more := HearAsked(u, x);
    } else {
      assert t.previous[t.monitor.next..] == [y] + t.previous[t.monitor.next + 1..];
      more := HearToSend(u, x);
    }
    HeardAfter(t, Mon(SendHeartbeat(y, true)), more, x);
    more := [Mon(SendHeartbeat(y, true))] + more;
  }

  lemma HearOther(t: State, x: Id) returns (more: seq<Action>)
    requires x in t.clients && !Lost(t, x)
    ensures Heard(t, more, x)
  {
    if Speaking(t, x) {
      more := HearInbound(t, x);
    } else if t.clients[x] == Replying {
      more := HearReplying(t, x);
    } else if x in t.heartbeats {
      more := HearAsked(t, x);
    } else {
      assert Token(t, x) == multiset(ToSend(t))[x];
      more := HearToSend(t, x);
    }
  }

  /** In every reachable state a client that has connected is lost iff no continuation is ever heard from it. */
  lemma {:induction false} LostIffSilent(past: seq<Action>, x: Id)
    requires x in Exec(Init, past).clients
    ensures Lost(Exec(Init, past), x) <==> forall more :: x !in Exec(Exec(Init, past), more).connected
  {
    var t := Exec(Init, past);
    if Lost(t, x) {
      forall more ensures x !in Exec(t, more).connected {
        LostForGood(past, more, x);
      }
    } else {
      var more := HearOther(t, x);
      assert x in Exec(t, more).connected;
    }
  }
}
