/**
  Clients that come back under the same identity, as the identity that a client saves is its own after a restart.
  One token per identity then depends on the moment: this module says on which.
 */
module Reconnection {
  import opened Protocol
  import opened Tokens
  import opened Alternation
  import opened Schedules

  datatype Move =
    | Plain(a: Action)      // a step of the system
    | Reconnect(id: Id)     // a client that has stopped starts again and announces itself

  predicate CanReconnect(s: State, id: Id) {
    id in s.clients && s.clients[id] == Stopped
  }

  function Again(s: State, id: Id): State {
    s.(clients := s.clients[id := Handshaking], inbound := s.inbound + multiset{id})
  }

  function Apply(s: State, m: Move): State {
    match m
    case Plain(a) => Step(s, a)
    case Reconnect(id) => if CanReconnect(s, id) then Again(s, id) else s
  }

  function StateAfter(moves: seq<Move>): State {
    if moves == [] then Init else Apply(StateAfter(moves[..|moves|-1]), moves[|moves|-1])
  }

  ghost predicate OneTokenEach(s: State) {
    forall id :: Token(s, id) <= 1
  }

  /** At no moment of the run has an identity two tokens. */
  ghost predicate AlwaysOneToken(moves: seq<Move>) {
    OneTokenEach(StateAfter(moves)) && (moves != [] ==> AlwaysOneToken(moves[..|moves|-1]))
  }

  /** The client comes back while nothing of its former session is left. */
  predicate CleanMove(s: State, m: Move) {
    m.Reconnect? && CanReconnect(s, m.id) ==> Token(s, m.id) == 0
  }

  predicate CleanReturns(moves: seq<Move>) {
    moves != [] ==>
      CleanReturns(moves[..|moves|-1]) && CleanMove(StateAfter(moves[..|moves|-1]), moves[|moves|-1])
  }

  lemma AgainToken(s: State, x: Id, id: Id)
    requires CanReconnect(s, x)
    ensures Token(Again(s, x), id) == Token(s, id) + if id == x then 1 else 0
  {
  }

  lemma {:induction false} CleanMoveKeepsInv(s: State, m: Move)
    requires TokenInv(s) && CleanMove(s, m)
    ensures TokenInv(Apply(s, m))
  {
    match m
    case Plain(a) => TokenInvStep(s, a);
    case Reconnect(x) =>
      if CanReconnect(s, x) {
        forall id ensures OneToken(Again(s, x), id) {
          AgainToken(s, x, id);
          assert OneToken(s, id);
        }
      }
  }

  lemma {:induction false} CleanReturnsKeepInv(moves: seq<Move>)
    requires CleanReturns(moves)
    ensures TokenInv(StateAfter(moves))
  {
    if moves != [] {
      CleanReturnsKeepInv(moves[..|moves|-1]);
      CleanMoveKeepsInv(StateAfter(moves[..|moves|-1]), moves[|moves|-1]);
    }
  }

  lemma OneTokenEachIf(s: State)
    requires TokenInv(s)
    ensures OneTokenEach(s)
  {
    forall id ensures Token(s, id) <= 1 {
      assert OneToken(s, id);
    }
  }

  /** A return while a token is left makes two. */
  lemma UncleanMove(s: State, m: Move)
    requires !CleanMove(s, m)
    ensures !OneTokenEach(Apply(s, m))
  {
    AgainToken(s, m.id, m.id);
  }

  /**
    With clients that come back: every identity has at most one token throughout the run if and only if no
    client comes back while a token of its former session is left.
   */
  lemma {:induction false} OneTokenIffCleanReturns(moves: seq<Move>)
    ensures AlwaysOneToken(moves) <==> CleanReturns(moves)
  {
    if moves == [] {
      CleanReturnsKeepInv([]);
      OneTokenEachIf(StateAfter([]));
    } else {
      var rest, last := moves[..|moves|-1], moves[|moves|-1];
      OneTokenIffCleanReturns(rest);
      if CleanReturns(moves) {
        CleanReturnsKeepInv(moves);
        OneTokenEachIf(StateAfter(moves));
      } else if !CleanMove(StateAfter(rest), last) {
        UncleanMove(StateAfter(rest), last);
      }
    }
  }

  // ---------------------------------------------------------------- what an early return does

  function Moves(run: seq<Action>): seq<Move> {
    if run == [] then [] else Moves(run[..|run|-1]) + [Plain(run[|run|-1])]
  }

  lemma AfterSnoc(moves: seq<Move>, m: Move)
    ensures StateAfter(moves + [m]) == Apply(StateAfter(moves), m)
  {
    assert (moves + [m])[..|moves|] == moves;
  }

  lemma {:induction false} AfterMoves(run: seq<Action>)
    ensures StateAfter(Moves(run)) == Exec(Init, run)
  {
    if run != [] {
      AfterMoves(run[..|run|-1]);
      AfterSnoc(Moves(run[..|run|-1]), Plain(run[|run|-1]));
    }
  }

  lemma More(moves: seq<Move>, s: State, m: Move, t: State) returns (more: seq<Move>)
    requires StateAfter(moves) == s && Apply(s, m) == t
    ensures StateAfter(more) == t && more == moves + [m]
  {
    AfterSnoc(moves, m);
    more := moves + [m];
  }

  /** The client is registered and stops. */
  lemma Stopping(x: Id) returns (moves: seq<Move>)
    ensures StateAfter(moves) == Calm(map[x := Stopped], [x], [Entry(x, Connection)])
  {
    var run := Joined(map[], [], [], x);
    assert map[][x := Listening] == map[x := Listening] && [] + [x] == [x];
    assert [] + [Entry(x, Connection)] == [Entry(x, Connection)];
    AfterMoves(run);
    assert map[x := Listening][x := Stopped] == map[x := Stopped];
    moves := More(Moves(run), Calm(map[x := Listening], [x], [Entry(x, Connection)]), Plain(Outside(Stop(x))),
                  Calm(map[x := Stopped], [x], [Entry(x, Connection)]));
  }

  /** It comes back before any round, and is checked. */
  lemma ComingBack(x: Id) returns (moves: seq<Move>)
    ensures StateAfter(moves) ==
      Calm(map[x := Handshaking], [x], [Entry(x, Connection), Entry(x, Connection)]).(receiver := Checked(x))
  {
    var s := Calm(map[x := Handshaking], [x], [Entry(x, Connection)]);
    moves := Stopping(x);
    assert map[x := Stopped][x := Handshaking] == map[x := Handshaking];
    moves := More(moves, Calm(map[x := Stopped], [x], [Entry(x, Connection)]),
                  Reconnect(x), s.(inbound := multiset{x}));
    moves := More(moves, s.(inbound := multiset{x}), Plain(Rx(Receive(x))), s.(receiver := Received(x)));
    assert [Entry(x, Connection)] + [Entry(x, Connection)] == [Entry(x, Connection), Entry(x, Connection)];
    moves := More(moves, s.(receiver := Received(x)), Plain(Rx(Check(x, true))),
                  s.(receiver := Checked(x), log := [Entry(x, Connection), Entry(x, Connection)]));
  }

  lemma TwoTokens(s: State, x: Id)
    requires s.connected == [x, x]
    ensures !OneTokenEach(s)
  {
    assert multiset(s.connected)[x] == 2;
    assert Token(s, x) >= 2;
  }

  lemma LoggedTwice(x: Id)
    ensures LogOf([Entry(x, Connection), Entry(x, Connection)], x) == [Connection, Connection]
  {
    var e := Entry(x, Connection);
    LogOfSnoc([], e, x);
    LogOfSnoc([e], e, x);
    assert [] + [e] == [e] && [e] + [e] == [e, e];
  }

  lemma RegisteredTwice(x: Id) returns (moves: seq<Move>)
    ensures StateAfter(moves).connected == [x, x]
    ensures StateAfter(moves).log == [Entry(x, Connection), Entry(x, Connection)]
  {
    var log := [Entry(x, Connection), Entry(x, Connection)];
    var s := Calm(map[x := Handshaking], [x], log).(receiver := Checked(x));
    moves := ComingBack(x);
    assert [x] + [x] == [x, x];
    moves := More(moves, s, Plain(Rx(Register(x))), s.(receiver := Registered(x), connected := [x, x]));
  }

  /** A client that stops and comes back before the server has noticed is in the connected list and the log twice. */
  lemma {:induction false} EarlyReturnDoubles(x: Id) returns (moves: seq<Move>)
    ensures StateAfter(moves).connected == [x, x]
    ensures LogOf(StateAfter(moves).log, x) == [Connection, Connection]
    ensures !AlwaysOneToken(moves) && !CleanReturns(moves)
  {
    moves := RegisteredTwice(x);
    LoggedTwice(x);
    TwoTokens(StateAfter(moves), x);
    OneTokenIffCleanReturns(moves);
  }
}
