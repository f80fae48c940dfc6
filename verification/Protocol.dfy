/**
  The disconnect-detection protocol: a ROUTER server with a receive thread and a
  monitor thread, and clients that announce themselves once and answer heartbeats.

  The threads, the clients and the network are one labelled transition system.  Every
  shared-memory access of either server thread is a step of its own, so a run is any
  interleaving of the two threads, of the clients, and of message losses.  Only the check reads a list
  and writes the log in one step; module Server shows that taking them apart makes no difference.
 */
module Protocol {

  type Id = string

  /** What `AddConnectionInfo` writes to the database. */
  datatype Kind = Connection | Disconnection
  datatype Entry = Entry(id: Id, kind: Kind)

  datatype Client =
    | Handshaking  // announced itself, waits for the server's GenericMessage
    | Listening    // blocked in RecvMessage for a heartbeat
    | Replying     // holds a heartbeat, has not sent its GenericMessage yet
    | Stopped

  /** Where the receive thread is in its loop body. */
  datatype Receiver =
    | Ready
    | Received(id: Id)    // message taken, HandleClientConnected not done
    | Checked(id: Id)     // HandleClientConnected done, id not pushed
    | Registered(id: Id)  // id pushed, reply not sent

  /** Where the monitor thread is in HandleClientDisconnected. */
  datatype Monitor =
    | Idle
    | Sending(next: nat)      // heartbeats sent to previous[..next]
    | Waiting
    | Leaving(byCount: bool)  // the wait loop is left
    | Harvested(seen: set<Id>)
    | Reporting(next: nat)    // previous[..next] logged as disconnected

  datatype State = State(
    clients: map<Id, Client>,
    inbound: multiset<Id>,     // GenericMessages travelling to the server
    heartbeats: multiset<Id>,  // heartbeats travelling to a client
    replies: multiset<Id>,     // GenericMessages travelling to a client
    receiver: Receiver,
    monitor: Monitor,
    connected: seq<Id>,
    previous: seq<Id>,
    log: seq<Entry>
  )

  /** Steps of the clients and of the network. */
  datatype OutsideAction =
    | Connect(id: Id)
    | AcceptReply(id: Id)
    | RefuseHeartbeat(id: Id)
    | TakeHeartbeat(id: Id)
    | Answer(id: Id)
    | DiscardReply(id: Id)
    | Stop(id: Id)
    | LoseInbound(id: Id)
    | LoseHeartbeat(id: Id)
    | LoseReply(id: Id)

  /** Steps of the receive thread. */
  datatype ReceiverAction =
    | Receive(id: Id)
    | Check(id: Id, online: bool)
    | Register(id: Id)
    | Reply(id: Id)

  /** Steps of the monitor thread. */
  datatype MonitorAction =
    | StartRound(online: bool)
    | SendHeartbeat(id: Id, routed: bool)
    | BeginWait
    | EndWait(byCount: bool)
    | Harvest
    | Erase
    | Report(id: Id)
    | EndRound

  datatype Action =
    | Outside(o: OutsideAction)
    | Rx(r: ReceiverAction)
    | Mon(m: MonitorAction)

  const Init := State(map[], multiset{}, multiset{}, multiset{}, Ready, Idle, [], [], [])

  // ---------------------------------------------------------------- list helpers

  function Elements<T>(s: seq<T>): set<T> {
    set x | x in s
  }

  /** The members of `s` outside `drop`, in order: what erase/remove_if keeps. */
  function Without(s: seq<Id>, drop: set<Id>): seq<Id> {
    if s == [] then []
    else Without(s[..|s|-1], drop) + (if s[|s|-1] in drop then [] else [s[|s|-1]])
  }

  /** The members of `s` inside `keep`, in order. */
  function Within(s: seq<Id>, keep: set<Id>): seq<Id> {
    if s == [] then []
    else Within(s[..|s|-1], keep) + (if s[|s|-1] in keep then [s[|s|-1]] else [])
  }

  // ---------------------------------------------------------------- transition system

  const SIZE_T_MAX: nat := 0xFFFF_FFFF_FFFF_FFFF

  /** `m_PrevConnectedClients.size() - 1` in `size_t`: an empty list wraps around. */
  function Threshold(snapshot: nat): nat {
    if snapshot == 0 then SIZE_T_MAX else snapshot - 1
  }

  function AfterCheck(log: seq<Entry>, previous: seq<Id>, id: Id, online: bool): seq<Entry> {
    if online && id !in previous then log + [Entry(id, Connection)] else log
  }

  predicate OutsideEnabled(s: State, o: OutsideAction) {
    match o
    case Connect(id) => id !in s.clients
    case AcceptReply(id) => id in s.clients && s.clients[id] == Handshaking && id in s.replies
    case RefuseHeartbeat(id) => id in s.clients && s.clients[id] == Handshaking && id in s.heartbeats
    case TakeHeartbeat(id) => id in s.clients && s.clients[id] == Listening && id in s.heartbeats
    case Answer(id) => id in s.clients && s.clients[id] == Replying
    case DiscardReply(id) => id in s.clients && s.clients[id] == Listening && id in s.replies
    case Stop(id) => id in s.clients
    case LoseInbound(id) => id in s.inbound
    case LoseHeartbeat(id) => id in s.heartbeats
    case LoseReply(id) => id in s.replies
  }

  function OutsideEffect(s: State, o: OutsideAction): State
    requires OutsideEnabled(s, o)
  {
    match o
    case Connect(id) => s.(clients := s.clients[id := Handshaking], inbound := s.inbound + multiset{id})
    case AcceptReply(id) => s.(clients := s.clients[id := Listening], replies := s.replies - multiset{id})
    case RefuseHeartbeat(id) => s.(clients := s.clients[id := Stopped], heartbeats := s.heartbeats - multiset{id})
    case TakeHeartbeat(id) => s.(clients := s.clients[id := Replying], heartbeats := s.heartbeats - multiset{id})
    case Answer(id) => s.(clients := s.clients[id := Listening], inbound := s.inbound + multiset{id})
    case DiscardReply(id) => s.(replies := s.replies - multiset{id})
    case Stop(id) => s.(clients := s.clients[id := Stopped])
    case LoseInbound(id) => s.(inbound := s.inbound - multiset{id})
    case LoseHeartbeat(id) => s.(heartbeats := s.heartbeats - multiset{id})
    case LoseReply(id) => s.(replies := s.replies - multiset{id})
  }

  predicate ReceiverEnabled(s: State, r: ReceiverAction) {
    match r
    case Receive(id) => s.receiver == Ready && id in s.inbound
    case Check(id, _) => s.receiver == Received(id)
    case Register(id) => s.receiver == Checked(id)
    case Reply(id) => s.receiver == Registered(id)
  }

  function ReceiverEffect(s: State, r: ReceiverAction): State
    requires ReceiverEnabled(s, r)
  {
    match r
    case Receive(id) => s.(inbound := s.inbound - multiset{id}, receiver := Received(id))
    case Check(id, online) => s.(receiver := Checked(id), log := AfterCheck(s.log, s.previous, id, online))
    case Register(id) => s.(receiver := Registered(id), connected := s.connected + [id])
    case Reply(id) => s.(receiver := Ready, replies := s.replies + multiset{id})
  }

  predicate MonitorEnabled(s: State, m: MonitorAction) {
    match m
    case StartRound(_) => s.monitor == Idle
    case SendHeartbeat(id, _) =>
      s.monitor.Sending? && s.monitor.next < |s.previous| && id == s.previous[s.monitor.next]
    case BeginWait => s.monitor == Sending(|s.previous|)
    case EndWait(byCount) =>
      s.monitor == Waiting && (byCount ==> Threshold(|s.previous|) <= |s.connected|)
    case Harvest => s.monitor.Leaving?
    case Erase => s.monitor.Harvested?
    case Report(id) =>
      s.monitor.Reporting? && s.monitor.next < |s.previous| && id == s.previous[s.monitor.next]
    case EndRound => s.monitor == Reporting(|s.previous|)
  }

  function MonitorEffect(s: State, m: MonitorAction): State
    requires MonitorEnabled(s, m)
  {
    match m
    case StartRound(online) =>
      if online then s.(monitor := Sending(0), previous := s.connected, connected := []) else s
    case SendHeartbeat(id, routed) =>
      s.(monitor := Sending(s.monitor.next + 1),
         heartbeats := if routed then s.heartbeats + multiset{id} else s.heartbeats)
    case BeginWait => s.(monitor := Waiting)
    case EndWait(byCount) => s.(monitor := Leaving(byCount))
    case Harvest => s.(monitor := Harvested(Elements(s.connected)))
    case Erase => s.(monitor := Reporting(0), previous := Without(s.previous, s.monitor.seen))
    case Report(id) =>
      s.(monitor := Reporting(s.monitor.next + 1), log := s.log + [Entry(id, Disconnection)])
    case EndRound => s.(monitor := Idle, previous := [])
  }

  predicate Enabled(s: State, a: Action) {
    match a
    case Outside(o) => OutsideEnabled(s, o)
    case Rx(r) => ReceiverEnabled(s, r)
    case Mon(m) => MonitorEnabled(s, m)
  }

  function Effect(s: State, a: Action): State
    requires Enabled(s, a)
  {
    match a
    case Outside(o) => OutsideEffect(s, o)
    case Rx(r) => ReceiverEffect(s, r)
    case Mon(m) => MonitorEffect(s, m)
  }

  /** One step; an action that is not enabled leaves the state as it is. */
  function Step(s: State, a: Action): State {
    if Enabled(s, a) then Effect(s, a) else s
  }

  /** The state a sequence of actions leads to. */
  function Exec(s: State, run: seq<Action>): State {
    if run == [] then s else Step(Exec(s, run[..|run|-1]), run[|run|-1])
  }

  /** Every action of the run is enabled when its turn comes. */
  ghost predicate Legal(s: State, run: seq<Action>) {
    forall i :: 0 <= i < |run| ==> Enabled(Exec(s, run[..i]), run[i])
  }

  lemma ExecSnoc(s: State, run: seq<Action>, a: Action)
    ensures Exec(s, run + [a]) == Step(Exec(s, run), a)
  {
    assert (run + [a])[..|run|] == run;
  }

  lemma ExecIs(s: State, run: seq<Action>, before: seq<Action>, last: Action)
    requires run == before + [last]
    ensures Exec(s, run) == Step(Exec(s, before), last)
  {
    ExecSnoc(s, before, last);
  }

  lemma {:induction false} ExecConcat(s: State, first: seq<Action>, second: seq<Action>)
    ensures Exec(s, first + second) == Exec(Exec(s, first), second)
    decreases |second|
  {
    if second == [] {
      assert first + second == first;
    } else {
      var init, last := second[..|second|-1], second[|second|-1];
      ExecConcat(s, first, init);
      ExecIs(Exec(s, first), second, init, last);
      ExecIs(s, first + second, first + init, last);
    }
  }

  lemma LegalPrefix(s: State, run: seq<Action>, n: nat)
    requires Legal(s, run) && n <= |run|
    ensures Legal(s, run[..n])
  {
    forall i | 0 <= i < n ensures Enabled(Exec(s, run[..n][..i]), run[..n][i]) {
      assert run[..n][..i] == run[..i];
    }
  }

  /** `run` leads from `s` to `t`, step by enabled step. */
  ghost predicate Runs(s: State, run: seq<Action>, t: State) {
    Legal(s, run) && Exec(s, run) == t
  }

  lemma {:induction false} RunsSnoc(s: State, run: seq<Action>, t: State, a: Action)
    requires Runs(s, run, t) && Enabled(t, a)
    ensures Runs(s, run + [a], Effect(t, a))
  {
    ExecSnoc(s, run, a);
    forall i | 0 <= i < |run + [a]| ensures Enabled(Exec(s, (run + [a])[..i]), (run + [a])[i]) {
      assert (run + [a])[..i] == run[..i];
      assert i == |run| ==> run[..i] == run;
    }
  }

  lemma RunsConcat(s: State, first: seq<Action>, t: State, second: seq<Action>, u: State)
    requires Runs(s, first, t) && Runs(t, second, u)
    ensures Runs(s, first + second, u)
  {
    ExecConcat(s, first, second);
    var run := first + second;
    forall i | 0 <= i < |run| ensures Enabled(Exec(s, run[..i]), run[i]) {
      if i < |first| {
        assert run[..i] == first[..i];
      } else {
        assert run[..i] == first + second[..i - |first|];
        ExecConcat(s, first, second[..i - |first|]);
      }
    }
  }
}
