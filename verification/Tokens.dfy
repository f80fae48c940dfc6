/**
  Token conservation: whatever the interleaving and whatever the network loses, a client
  identity is in at most one of the places a GenericMessage can come from.
 */
module Tokens {
  import opened Protocol
  import opened Sequences

  function ToSend(s: State): seq<Id> {
    if s.monitor.Sending? && s.monitor.next <= |s.previous| then s.previous[s.monitor.next..] else []
  }

  function InHandling(s: State, id: Id): nat {
    if s.receiver == Received(id) || s.receiver == Checked(id) then 1 else 0
  }

  function AtClient(s: State, id: Id): nat {
    if id in s.clients && s.clients[id] == Replying then 1 else 0
  }

  /**
    The tokens of one identity: its entries in the connected list, its GenericMessages on
    the wire or in handling, and its heartbeats to send, on the wire or being answered.
   */
  function Token(s: State, id: Id): nat {
    multiset(s.connected)[id] + s.inbound[id] + InHandling(s, id)
    + multiset(ToSend(s))[id] + s.heartbeats[id] + AtClient(s, id)
  }

  /** One token at most, and none before the first announcement. */
  ghost predicate OneToken(s: State, id: Id) {
    Token(s, id) <= 1 && (id !in s.clients ==> Token(s, id) == 0)
  }

  ghost predicate MonitorSound(s: State) {
    && (s.monitor.Idle? ==> s.previous == [])
    && (s.monitor.Sending? ==> s.monitor.next <= |s.previous|)
  }

  ghost predicate TokenInv(s: State) {
    MonitorSound(s) && forall id :: OneToken(s, id)
  }

  lemma TokenSendStep(s: State, x: Id, routed: bool, id: Id)
    requires MonitorEnabled(s, SendHeartbeat(x, routed)) && s.monitor.next <= |s.previous|
    ensures Token(MonitorEffect(s, SendHeartbeat(x, routed)), id) <= Token(s, id)
  {
    var t := MonitorEffect(s, SendHeartbeat(x, routed));
    assert ToSend(s) == [x] + ToSend(t) by {
      assert s.previous[s.monitor.next..] == [x] + s.previous[s.monitor.next + 1..];
    }
  }

  lemma TokenMonitorStep(s: State, m: MonitorAction, id: Id)
    requires MonitorEnabled(s, m)
    requires s.monitor.Sending? ==> s.monitor.next <= |s.previous|
    ensures Token(MonitorEffect(s, m), id) <= Token(s, id)
  {
    match m
    case SendHeartbeat(x, routed) => TokenSendStep(s, x, routed, id);
    case StartRound(online) => assert s.connected[0..] == s.connected;
    case _ =>
  }

  lemma TokenReceiverStep(s: State, r: ReceiverAction, id: Id)
    requires ReceiverEnabled(s, r)
    ensures Token(ReceiverEffect(s, r), id) <= Token(s, id)
  {
    assert ToSend(ReceiverEffect(s, r)) == ToSend(s);
  }

  /** Clients and the network touch neither server thread's data. */
  lemma OutsideFrame(s: State, o: OutsideAction)
    requires OutsideEnabled(s, o)
    ensures var t := OutsideEffect(s, o);
      && s.clients.Keys <= t.clients.Keys
      && (o.Connect? ==> o.id in t.clients)
      && t.receiver == s.receiver && t.monitor == s.monitor
      && t.connected == s.connected && t.previous == s.previous && t.log == s.log
  {
  }

  /** The part of the token that clients and the network touch. */
  function Abroad(s: State, id: Id): nat {
    s.inbound[id] + s.heartbeats[id] + AtClient(s, id)
  }

  lemma AbroadStep(s: State, o: OutsideAction, id: Id)
    requires OutsideEnabled(s, o)
    ensures Abroad(OutsideEffect(s, o), id) <= Abroad(s, id) + (if o == Connect(id) then 1 else 0)
  {
  }

  lemma TokenParts(s: State, id: Id)
    ensures Token(s, id) == Abroad(s, id) + multiset(s.connected)[id] + InHandling(s, id) + multiset(ToSend(s))[id]
  {
  }

  lemma TokenOutsideStep(s: State, o: OutsideAction, id: Id)
    requires OutsideEnabled(s, o)
    ensures Token(OutsideEffect(s, o), id) <= Token(s, id) + (if o == Connect(id) then 1 else 0)
  {
    var t := OutsideEffect(s, o);
    AbroadStep(s, o, id);
    TokenParts(s, id);
    TokenParts(t, id);
    assert t.connected == s.connected && InHandling(t, id) == InHandling(s, id) && ToSend(t) == ToSend(s) by {
      OutsideFrame(s, o);
    }
  }

  /** No step but the first announcement creates a token; every other step moves or drops it. */
  lemma {:induction false} TokenStep(s: State, a: Action, id: Id)
    requires s.monitor.Sending? ==> s.monitor.next <= |s.previous|
    ensures Token(Step(s, a), id) <= Token(s, id) + (if Enabled(s, a) && a == Outside(Connect(id)) then 1 else 0)
  {
    if Enabled(s, a) {
      match a
      case Outside(o) => TokenOutsideStep(s, o, id);
      case Rx(r) => TokenReceiverStep(s, r, id);
      case Mon(m) => TokenMonitorStep(s, m, id);
    }
  }

  lemma KnownClientsStep(s: State, a: Action)
    ensures s.clients.Keys <= Step(s, a).clients.Keys
    ensures Enabled(s, a) && a.Outside? && a.o.Connect? ==> a.o.id in Step(s, a).clients
    ensures !a.Mon? ==> Step(s, a).monitor == s.monitor && Step(s, a).previous == s.previous
  {
    if Enabled(s, a) {
      match a
      case Outside(o) => OutsideFrame(s, o);
      case Rx(_) =>
      case Mon(_) =>
    }
  }

  lemma {:induction false} OneTokenStep(s: State, a: Action, id: Id)
    requires MonitorSound(s) && OneToken(s, id)
    ensures OneToken(Step(s, a), id)
  {
    var before, after, known := Token(s, id), Token(Step(s, a), id), id in s.clients;
    assert after <= before + (if Enabled(s, a) && a == Outside(Connect(id)) then 1 else 0) by {
      TokenStep(s, a, id);
    }
    assert id !in Step(s, a).clients ==> !known && !(Enabled(s, a) && a == Outside(Connect(id))) by {
      KnownClientsStep(s, a);
    }
    assert Enabled(s, a) && a == Outside(Connect(id)) ==> !known;
  }

  lemma MonitorSoundStep(s: State, a: Action)
    requires MonitorSound(s)
    ensures MonitorSound(Step(s, a))
  {
    KnownClientsStep(s, a);
  }

  lemma {:induction false} TokenInvStep(s: State, a: Action)
    requires TokenInv(s)
    ensures TokenInv(Step(s, a))
  {
    MonitorSoundStep(s, a);
    forall id ensures OneToken(Step(s, a), id) {
      OneTokenStep(s, a, id);
    }
  }

  lemma {:induction false} TokenInvRun(run: seq<Action>)
    ensures TokenInv(Exec(Init, run))
  {
    if run == [] {
    } else {
      TokenInvRun(run[..|run|-1]);
      TokenInvStep(Exec(Init, run[..|run|-1]), run[|run|-1]);
    }
  }

  /** A sequence in which nothing occurs twice has no duplicates. */
  lemma CountsToDistinct(s: seq<Id>)
    requires forall id :: multiset(s)[id] <= 1
    ensures Distinct(s)
  {
    forall i, j | 0 <= i < j < |s| ensures s[i] != s[j] {
      assert s == s[..i] + [s[i]] + s[i+1..j] + [s[j]] + s[j+1..];
      assert multiset(s)[s[i]] >= 1 + multiset([s[j]])[s[i]];
    }
  }

  /** The main result: one token at most per identity, hence a connected list without duplicates. */
  lemma AtMostOneToken(run: seq<Action>)
    ensures forall id :: Token(Exec(Init, run), id) <= 1
    ensures Distinct(Exec(Init, run).connected)
  {
    TokenInvRun(run);
    var s := Exec(Init, run);
    forall id ensures Token(s, id) <= 1 && multiset(s.connected)[id] <= 1 {
      assert OneToken(s, id);
    }
    CountsToDistinct(s.connected);
  }
}
