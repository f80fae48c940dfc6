/** Building blocks of concrete runs: single steps, their composition, and a client that connects. */
module Schedules {
  import opened Protocol

  /** No message is lost and no client stops. */
  predicate Lossless(a: Action) {
    !(a.Outside? && (a.o.LoseInbound? || a.o.LoseHeartbeat? || a.o.LoseReply? || a.o.Stop?))
  }

  ghost predicate AllLossless(run: seq<Action>) {
    forall a :: a in run ==> Lossless(a)
  }

  /** The actions of a run are those of two others. */
  ghost predicate MadeOf(run: seq<Action>, a: seq<Action>, b: seq<Action>) {
    forall x :: x in run <==> x in a || x in b
  }

  lemma One(s: State, a: Action, t: State) returns (run: seq<Action>)
    requires Enabled(s, a) && Effect(s, a) == t
    ensures Runs(s, run, t) && forall x :: x in run <==> x == a
  {
    RunsSnoc(s, [], s, a);
    assert [] + [a] == [a];
    run := [a];
  }

  lemma Then(s: State, a: seq<Action>, t: State, b: seq<Action>, u: State) returns (run: seq<Action>)
    requires Runs(s, a, t) && Runs(t, b, u)
    ensures Runs(s, run, u) && run == a + b && MadeOf(run, a, b)
    ensures AllLossless(a) && AllLossless(b) ==> AllLossless(run)
  {
    RunsConcat(s, a, t, b, u);
    run := a + b;
  }

  lemma Two(s: State, a: Action, t: State, b: Action, u: State) returns (run: seq<Action>)
    requires Enabled(s, a) && Effect(s, a) == t
    requires Enabled(t, b) && Effect(t, b) == u
    ensures Runs(s, run, u) && forall x :: x in run <==> x == a || x == b
  {
    var first := One(s, a, t);
    var second := One(t, b, u);
    run := Then(s, first, t, second, u);
  }

  lemma Three(s: State, a: Action, t: State, b: Action, u: State, c: Action, v: State) returns (run: seq<Action>)
    requires Enabled(s, a) && Effect(s, a) == t
    requires Enabled(t, b) && Effect(t, b) == u
    requires Enabled(u, c) && Effect(u, c) == v
    ensures Runs(s, run, v) && forall x :: x in run <==> x == a || x == b || x == c
  {
    var first := Two(s, a, t, b, u);
    var second := One(u, c, v);
    run := Then(s, first, u, second, v);
  }

  // ---------------------------------------------------------------- a client connects

  /** Nothing in flight and no thread at work. */
  function Calm(clients: map<Id, Client>, connected: seq<Id>, log: seq<Entry>): State {
    State(clients, multiset{}, multiset{}, multiset{}, Ready, Idle, connected, [], log)
  }

  lemma Announced(clients: map<Id, Client>, connected: seq<Id>, log: seq<Entry>, x: Id) returns (run: seq<Action>)
    requires x !in clients
    ensures AllLossless(run)
    ensures Runs(Calm(clients, connected, log), run,
                 Calm(clients[x := Handshaking], connected, log + [Entry(x, Connection)]).(receiver := Checked(x)))
  {
    var t := Calm(clients[x := Handshaking], connected, log);
    run := Three(Calm(clients, connected, log), Outside(Connect(x)), t.(inbound := multiset{x}),
                 Rx(Receive(x)), t.(receiver := Received(x)),
                 Rx(Check(x, true)), t.(receiver := Checked(x), log := log + [Entry(x, Connection)]));
  }

  lemma Accepted(clients: map<Id, Client>, connected: seq<Id>, log: seq<Entry>, x: Id) returns (run: seq<Action>)
    requires x in clients && clients[x] == Handshaking
    ensures AllLossless(run)
    ensures Runs(Calm(clients, connected, log).(receiver := Checked(x)), run,
                 Calm(clients[x := Listening], connected + [x], log))
  {
    var u := Calm(clients, connected + [x], log);
    run := Three(Calm(clients, connected, log).(receiver := Checked(x)),
                 Rx(Register(x)), u.(receiver := Registered(x)),
                 Rx(Reply(x)), u.(replies := multiset{x}),
                 Outside(AcceptReply(x)), u.(clients := clients[x := Listening]));
  }

  /** A client connects to a calm server. */
  lemma Joined(clients: map<Id, Client>, connected: seq<Id>, log: seq<Entry>, x: Id) returns (run: seq<Action>)
    requires x !in clients
    ensures AllLossless(run)
    ensures Runs(Calm(clients, connected, log), run,
                 Calm(clients[x := Listening], connected + [x], log + [Entry(x, Connection)]))
  {
    var shaking, late := clients[x := Handshaking], log + [Entry(x, Connection)];
    var first := Announced(clients, connected, log, x);
    var second := Accepted(shaking, connected, late, x);
    assert shaking[x := Listening] == clients[x := Listening];
    run := Then(Calm(clients, connected, log), first, Calm(shaking, connected, late).(receiver := Checked(x)),
                second, Calm(clients[x := Listening], connected + [x], late));
  }
}
