/**
  The server object.  Its methods are the bodies the two threads run; each is proved to take
  exactly the steps of the transition system, so the whole-run results hold of them.
 */
module Server {
  import opened Protocol
  import opened Alternation
  import opened Rounds
  import opened Tokens
  import opened Heartbeats

  /** `run` leads from `s` to `t` without ending a round. */
  ghost predicate Leads(s: State, run: seq<Action>, t: State) {
    Runs(s, run, t) && Mon(EndRound) !in run
  }

  lemma LeadsSnoc(s: State, run: seq<Action>, t: State, a: Action)
    requires Leads(s, run, t) && Enabled(t, a) && a != Mon(EndRound)
    ensures Leads(s, run + [a], Effect(t, a))
  {
    RunsSnoc(s, run, t, a);
  }

  lemma {:induction false} LeadsConcat(s: State, first: seq<Action>, t: State, second: seq<Action>, u: State)
    requires Leads(s, first, t) && Leads(t, second, u)
    ensures Leads(s, first + second, u)
  {
    RunsConcat(s, first, t, second, u);
  }

  /** What another thread, the clients and the network may do while the monitor thread runs. */
  ghost predicate OthersOnly(actions: seq<Action>) {
    forall a :: a in actions ==> !a.Mon?
  }

  /** What the others do at the points at which the monitor thread can be preempted in a round. */
  datatype Interference = Interference(
    swapped: seq<Action>,           // between the swap and the first heartbeat
    sending: nat -> seq<Action>,    // after each heartbeat
    waiting: nat -> seq<Action>,    // during each sleep
    left: seq<Action>,              // between the wait and the harvest
    harvested: seq<Action>,         // between the harvest and the erase
    erased: seq<Action>,            // between the erase and the first report
    reporting: nat -> seq<Action>)  // after each report
  {
    ghost predicate NoMonitor() {
      && OthersOnly(swapped) && OthersOnly(left) && OthersOnly(harvested) && OthersOnly(erased)
      && forall k :: OthersOnly(sending(k)) && OthersOnly(waiting(k)) && OthersOnly(reporting(k))
    }
  }

  // ---------------------------------------------------------------- what the methods are to do

  /** A heartbeat per member, each followed by what the others do. */
  function SendingPlan(snapshot: seq<Id>, routed: nat -> bool, others: nat -> seq<Action>): seq<Action> {
    if snapshot == [] then []
    else
      var n := |snapshot| - 1;
      SendingPlan(snapshot[..n], routed, others) + [Mon(SendHeartbeat(snapshot[n], routed(n)))] + others(n)
  }

  /** What the others do during the first `n` sleeps. */
  function WaitingPlan(others: nat -> seq<Action>, n: nat): seq<Action> {
    if n == 0 then [] else WaitingPlan(others, n - 1) + others(n - 1)
  }

  /** A report per member, each followed by what the others do. */
  function ReportingPlan(missing: seq<Id>, others: nat -> seq<Action>): seq<Action> {
    if missing == [] then []
    else
      var n := |missing| - 1;
      ReportingPlan(missing[..n], others) + [Mon(Report(missing[n]))] + others(n)
  }

  /** From the swap to the end of the sending. */
  function AskingPlan(snapshot: seq<Id>, routed: nat -> bool, others: Interference): seq<Action> {
    others.swapped + (SendingPlan(snapshot, routed, others.sending) + [Mon(BeginWait)])
  }

  /** From the swap to the erase. */
  function ErasingPlan(snapshot: seq<Id>, routed: nat -> bool, others: Interference, sleeps: nat, byCount: bool)
    : seq<Action>
  {
    AskingPlan(snapshot, routed, others) + (WaitingPlan(others.waiting, sleeps) + [Mon(EndWait(byCount))])
    + others.left + ([Mon(Harvest)] + others.harvested + [Mon(Erase)])
  }

  /** From the swap to the last report. */
  function RoundPlan(snapshot: seq<Id>, routed: nat -> bool, others: Interference, sleeps: nat, byCount: bool,
                     missing: seq<Id>): seq<Action>
  {
    ErasingPlan(snapshot, routed, others, sleeps, byCount) + others.erased + ReportingPlan(missing, others.reporting)
  }

  /** The connected list is long enough after `k` sleeps of the wait that starts in `s`. */
  ghost predicate Reached(s: State, others: nat -> seq<Action>, k: nat) {
    Threshold(|s.previous|) <= |Exec(s, WaitingPlan(others, k)).connected|
  }

  /** The wait that starts in `s` goes on for `n` sleeps. */
  ghost predicate GoesOn(s: State, clock: nat -> int, others: nat -> seq<Action>, n: nat) {
    forall k: nat :: k < n ==> !Reached(s, others, k) && clock(k) < 10_000
  }

  /** The wait that starts in `s` is left at the first chance, after `sleeps` sleeps. */
  ghost predicate WaitEnds(s: State, clock: nat -> int, others: nat -> seq<Action>, sleeps: nat, byCount: bool) {
    && GoesOn(s, clock, others, sleeps)
    && (byCount <==> Reached(s, others, sleeps))
    && (byCount || 10_000 <= clock(sleeps))
  }

  /** The round begun in `s` has come to its last report in `t`; the wait took `sleeps` sleeps. */
  ghost predicate AsPlanned(s: State, snapshot: seq<Id>, routed: nat -> bool, clock: nat -> int, others: Interference,
                            sleeps: nat, byCount: bool, missing: seq<Id>, t: State)
  {
    && WaitEnds(Exec(s, AskingPlan(snapshot, routed, others)), clock, others.waiting, sleeps, byCount)
    && missing == Exec(s, ErasingPlan(snapshot, routed, others, sleeps, byCount)).previous
    && t == Exec(s, RoundPlan(snapshot, routed, others, sleeps, byCount, missing))
  }

  /** The check is one step, at the read or at the write. */
  function CheckPlan(s: State, id: Id, online: bool, between: seq<Action>): seq<Action> {
    if !online || id in s.previous then [Rx(Check(id, online))] + between else between + [Rx(Check(id, online))]
  }

  lemma {:induction false} SendingPlanSnoc(snapshot: seq<Id>, routed: nat -> bool, others: nat -> seq<Action>, k: nat)
    requires k < |snapshot|
    ensures SendingPlan(snapshot[..k + 1], routed, others)
      == SendingPlan(snapshot[..k], routed, others) + [Mon(SendHeartbeat(snapshot[k], routed(k)))] + others(k)
  {
    assert snapshot[..k + 1][..k] == snapshot[..k];
  }

  /** The first `k` snapshot members have been sent their heartbeats and nothing else has become of any. */
  ghost predicate SentTo(s: State, t: State, k: nat, asked: seq<Id>, routed: nat -> bool) {
    && |asked| == k && t.monitor == Sending(k) && t.previous == s.previous
    && t.heartbeats == s.heartbeats + Routable(asked, routed)
  }

  lemma SentToNext(s: State, t: State, k: nat, asked: seq<Id>, id: Id, routed: nat -> bool)
    requires SentTo(s, t, k, asked, routed) && k < |s.previous| && s.previous[k] == id
    ensures SentTo(s, Step(t, Mon(SendHeartbeat(id, routed(k)))), k + 1, asked + [id], routed)
  {
    assert (asked + [id])[..k] == asked;
  }

  lemma SendingOne(s: State, t: State, snapshot: seq<Id>, routed: nat -> bool, others: nat -> seq<Action>, k: nat)
    requires k < |snapshot| && others(k) == [] && t == Exec(s, SendingPlan(snapshot[..k], routed, others))
    ensures Exec(s, SendingPlan(snapshot[..k + 1], routed, others))
         == Step(t, Mon(SendHeartbeat(snapshot[k], routed(k))))
  {
    SendingPlanSnoc(snapshot, routed, others, k);
    var plan, send := SendingPlan(snapshot[..k], routed, others), Mon(SendHeartbeat(snapshot[k], routed(k)));
    ExecIs(s, SendingPlan(snapshot[..k + 1], routed, others), plan, send);
  }

  /** Undisturbed, the sending puts exactly one heartbeat on the wire for each routable snapshot member. */
  lemma {:induction false} UndisturbedSending(s: State, k: nat, routed: nat -> bool, others: nat -> seq<Action>)
    returns (t: State)
    requires s.monitor == Sending(0) && k <= |s.previous| && forall j :: others(j) == []
    ensures t == Exec(s, SendingPlan(s.previous[..k], routed, others)) && SentTo(s, t, k, s.previous[..k], routed)
  {
    if k == 0 {
      t := s;
    } else {
      var id := s.previous[k - 1];
      var u := UndisturbedSending(s, k - 1, routed, others);
      t := Step(u, Mon(SendHeartbeat(id, routed(k - 1))));
      SendingOne(s, u, s.previous, routed, others, k - 1);
      SentToNext(s, u, k - 1, s.previous[..k - 1], id, routed);
      assert s.previous[..k] == s.previous[..k - 1] + [id];
    }
  }

  lemma {:induction false} ReportingPlanSnoc(missing: seq<Id>, others: nat -> seq<Action>, k: nat)
    requires k < |missing|
    ensures ReportingPlan(missing[..k + 1], others)
      == ReportingPlan(missing[..k], others) + [Mon(Report(missing[k]))] + others(k)
  {
    assert missing[..k + 1][..k] == missing[..k];
  }

  lemma {:induction false} WaitingPlanOthers(others: nat -> seq<Action>, n: nat)
    requires forall k :: OthersOnly(others(k))
    ensures OthersOnly(WaitingPlan(others, n))
  {
    if n > 0 {
      WaitingPlanOthers(others, n - 1);
      assert OthersOnly(others(n - 1));
    }
  }

  /** The enabled ones among the actions are a run to the same state. */
  lemma {:induction false} EnabledOnes(s: State, actions: seq<Action>) returns (run: seq<Action>)
    requires OthersOnly(actions)
    ensures Leads(s, run, Exec(s, actions)) && OthersOnly(run)
  {
    if actions == [] {
      run := [];
    } else {
      var n := |actions| - 1;
      run := EnabledOnes(s, actions[..n]);
      run := OneMore(s, run, Exec(s, actions[..n]), actions[n]);
    }
  }

  lemma OneMore(s: State, run: seq<Action>, t: State, a: Action) returns (longer: seq<Action>)
    requires Leads(s, run, t) && a != Mon(EndRound)
    ensures Leads(s, longer, Step(t, a)) && forall x :: x in longer ==> x in run || x == a
  {
    longer := run;
    if Enabled(t, a) {
      LeadsSnoc(s, run, t, a);
      longer := run + [a];
    }
  }

  /** What the monitor thread, the clients and the network may do while the receive thread runs. */
  ghost predicate NotReceiver(actions: seq<Action>) {
    forall a :: a in actions ==> !a.Rx?
  }

  lemma KeepsReceiver(s: State, a: Action)
    requires Enabled(s, a) && !a.Rx?
    ensures Effect(s, a).receiver == s.receiver
  {
    if a.Outside? {
      OutsideFrame(s, a.o);
    }
  }

  lemma RunsOne(s: State, a: Action)
    requires Enabled(s, a)
    ensures Runs(s, [a], Effect(s, a))
  {
    RunsSnoc(s, [], s, a);
    assert [] + [a] == [a];
  }

  /** An identity in the receive thread's hands does not come into the previous list. */
  lemma StaysOut(s: State, a: Action, id: Id)
    requires Shape(s) && Enabled(s, a) && !a.Rx? && s.receiver == Received(id) && id !in s.previous
    ensures id !in Effect(s, a).previous
  {
    InHandsNotConnected(s, id);
    if a.Outside? {
      OutsideFrame(s, a.o);
    } else if a.m.Erase? {
      WithoutMembers(s.previous, s.monitor.seen);
    }
  }

  lemma {:induction false} StaysOutOfPrevious(s: State, run: seq<Action>, t: State, id: Id)
    requires Shape(s) && s.receiver == Received(id) && id !in s.previous
    requires Runs(s, run, t) && NotReceiver(run)
    ensures Shape(t) && t.receiver == Received(id) && id !in t.previous
    decreases |run|
  {
    if run != [] {
      var n := |run| - 1;
      var rest, a := run[..n], run[n];
      var u := Exec(s, rest);
      LegalPrefix(s, run, n);
      assert NotReceiver(rest) && a in run;
      StaysOutOfPrevious(s, rest, u, id);
      assert Enabled(u, a) && t == Effect(u, a);
      StaysOut(u, a, id);
      KeepsReceiver(u, a);
      ShapeStep(u, a);
    }
  }

  /** The receive thread's steps for one message, and what happens around the check and after the push. */
  function HandlingSteps(id: Id, online: bool, ahead: seq<Action>, afterCheck: seq<Action>, afterPush: seq<Action>)
    : seq<Action>
  {
    ahead + [Rx(Check(id, online))] + afterCheck + [Rx(Register(id))] + afterPush + [Rx(Reply(id))]
  }

  class NetWatchdogServer {
    var connected: seq<Id>   // m_ConnectedClients
    var previous: seq<Id>    // m_PrevConnectedClients
    var log: seq<Entry>      // the database's connection log
    var model: State         // the system this server is part of: both threads, clients, network

    ghost predicate Valid()
      reads this
    {
      model.connected == connected && model.previous == previous && model.log == log
    }

    constructor ()
      ensures Valid() && model == Init
    {
      connected, previous, log := [], [], [];
      model := Init;
    }

    // ------------------------------------------------------------ receive thread

    method PushClient(id: Id)
      requires Valid() && ReceiverEnabled(model, Register(id))
      modifies this
      ensures Valid() && model == ReceiverEffect(old(model), Register(id))
    {
      connected := connected + [id];
      model := ReceiverEffect(model, Register(id));
    }

    /** A step that the monitor thread, a client or the network may take. */
    method TakeElse(ghost start: State, ghost did: seq<Action>, a: Action) returns (ghost longer: seq<Action>)
      requires Valid() && Runs(start, did, model) && NotReceiver(did) && !a.Rx?
      modifies this
      ensures Valid() && Runs(start, longer, model) && NotReceiver(longer)
      ensures model.receiver == old(model.receiver) && model == Step(old(model), a)
    {
      longer := did;
      if Enabled(model, a) {
        RunsSnoc(start, did, model, a);
        KeepsReceiver(model, a);
        model := Effect(model, a);
        connected, previous, log := model.connected, model.previous, model.log;
        longer := did + [a];
      }
    }

    /** The monitor thread, the clients and the network, while the receive thread is preempted. */
    method Elsewhere(actions: seq<Action>) returns (ghost did: seq<Action>)
      requires Valid() && NotReceiver(actions)
      modifies this
      ensures Valid() && Runs(old(model), did, model) && NotReceiver(did)
      ensures model.receiver == old(model.receiver)
      ensures model == Exec(old(model), actions)
    {
      did := [];
      for i := 0 to |actions|
        invariant Valid() && Runs(old(model), did, model) && NotReceiver(did)
        invariant model.receiver == old(model.receiver)
        invariant model == Exec(old(model), actions[..i])
      {
        ExecIs(old(model), actions[..i + 1], actions[..i], actions[i]);
        assert actions[i] in actions;
        did := TakeElse(old(model), did, actions[i]);
      }
      assert actions[..|actions|] == actions;
    }

    /** The same, after the run so far. */
    method ElsewhereAfter(ghost start: State, ghost run: seq<Action>, ghost plan: seq<Action>, actions: seq<Action>)
      returns (ghost did: seq<Action>)
      requires Valid() && Runs(start, run, model) && model == Exec(start, plan) && NotReceiver(actions)
      modifies this
      ensures Valid() && Runs(start, run + did, model) && model == Exec(start, plan + actions)
      ensures model.receiver == old(model.receiver) && NotReceiver(did)
    {
      ghost var before := model;
      did := Elsewhere(actions);
      RunsConcat(start, run, before, did, model);
      ExecConcat(start, plan, actions);
    }

    /** The database does not answer, or the identity has been found: the step is taken at the read. */
    method LeaveLog(id: Id, online: bool, between: seq<Action>) returns (ghost behind: seq<Action>)
      requires Valid() && ReceiverEnabled(model, Check(id, online)) && NotReceiver(between)
      requires !online || id in previous
      modifies this
      ensures Valid() && model.receiver == Checked(id) && NotReceiver(behind)
      ensures Runs(old(model), [Rx(Check(id, online))] + behind, model)
      ensures model == Exec(old(model), [Rx(Check(id, online))] + between)
    {
      RunsOne(model, Rx(Check(id, online)));
      model := ReceiverEffect(model, Check(id, online));
      ghost var checked := model;
      behind := Elsewhere(between);
      RunsConcat(old(model), [Rx(Check(id, online))], checked, behind, model);
      ExecConcat(old(model), [Rx(Check(id, online))], between);
    }

    /** The identity has not been found: the step is taken at the write. */
    method LogConnection(id: Id, between: seq<Action>) returns (ghost ahead: seq<Action>)
      requires Valid() && ReceiverEnabled(model, Check(id, true)) && Shape(model) && NotReceiver(between)
      requires id !in previous
      modifies this
      ensures Valid() && model.receiver == Checked(id) && NotReceiver(ahead)
      ensures Runs(old(model), ahead + [Rx(Check(id, true))], model)
      ensures model == Exec(old(model), between + [Rx(Check(id, true))])
    {
      ahead := Elsewhere(between);
      assert id !in model.previous && model.receiver == Received(id) by {
        StaysOutOfPrevious(old(model), ahead, model, id);
      }
      RunsSnoc(old(model), ahead, model, Rx(Check(id, true)));
      ExecSnoc(old(model), between, Rx(Check(id, true)));
      log := log + [Entry(id, Connection)];
      model := ReceiverEffect(model, Check(id, true));
    }

    /**
      HandleClientConnected reads the previous list and then writes the log, and the others may act in between.
      It is the one step of the system all the same, taken at the read if the identity is in the
      list, and at the write if it is not: it cannot have come into it meanwhile.  `Shape` holds in every
      reachable state.
     */
    method HandleClientConnected(id: Id, online: bool, between: seq<Action>)
      returns (ghost ahead: seq<Action>, ghost behind: seq<Action>)
      requires Valid() && ReceiverEnabled(model, Check(id, online)) && Shape(model) && NotReceiver(between)
      modifies this
      ensures Valid() && model.receiver == Checked(id)
      ensures NotReceiver(ahead) && NotReceiver(behind)
      ensures Runs(old(model), ahead + [Rx(Check(id, online))] + behind, model)
      ensures model == Exec(old(model), CheckPlan(old(model), id, online, between))
    {
      ghost var check := Rx(Check(id, online));
      if !online || id in previous {
        ahead := [];
        behind := LeaveLog(id, online, between);
        assert [] + [check] == [check];
      } else {
        ahead := LogConnection(id, between);
        behind := [];
        assert ahead + [check] + [] == ahead + [check];
      }
    }

    method CheckAndPause(id: Id, online: bool, checking: seq<Action>, checked: seq<Action>)
      returns (ghost ahead: seq<Action>, ghost afterCheck: seq<Action>)
      requires Valid() && ReceiverEnabled(model, Check(id, online)) && Shape(model)
      requires NotReceiver(checking) && NotReceiver(checked)
      modifies this
      ensures Valid() && model.receiver == Checked(id)
      ensures NotReceiver(ahead) && NotReceiver(afterCheck)
      ensures Runs(old(model), ahead + [Rx(Check(id, online))] + afterCheck, model)
      ensures model == Exec(old(model), CheckPlan(old(model), id, online, checking) + checked)
    {
      ghost var behind;
      ahead, behind := HandleClientConnected(id, online, checking);
      ghost var run, plan := ahead + [Rx(Check(id, online))] + behind, CheckPlan(old(model), id, online, checking);
      ghost var more := ElsewhereAfter(old(model), run, plan, checked);
      afterCheck := behind + more;
      assert run + more == ahead + [Rx(Check(id, online))] + afterCheck;
    }

    /**
      The body of the receive loop for one GenericMessage.  Whatever happens in between, it takes the
      three steps check, register and reply, and pushes the identity onto the list that it finds.  Of the others'
      steps exactly the enabled ones happen.
     */
    method HandleMessage(id: Id, online: bool, checking: seq<Action>, checked: seq<Action>, pushed: seq<Action>)
      returns (ghost ahead: seq<Action>, ghost afterCheck: seq<Action>, ghost afterPush: seq<Action>)
      requires Valid() && ReceiverEnabled(model, Check(id, online)) && Shape(model)
      requires NotReceiver(checking) && NotReceiver(checked) && NotReceiver(pushed)
      modifies this
      ensures Valid() && model.receiver == Ready
      ensures NotReceiver(ahead) && NotReceiver(afterCheck) && NotReceiver(afterPush)
      ensures Runs(old(model), HandlingSteps(id, online, ahead, afterCheck, afterPush), model)
      ensures model == Exec(old(model), CheckPlan(old(model), id, online, checking) + checked
                                        + ([Rx(Register(id))] + pushed + [Rx(Reply(id))]))
    {
      ghost var start := model;
      ahead, afterCheck := CheckAndPause(id, online, checking, checked);
      afterPush := PushAndReply(start, ahead + [Rx(Check(id, online))] + afterCheck, id, pushed);
      ExecConcat(start, CheckPlan(start, id, online, checking) + checked,
        [Rx(Register(id))] + pushed + [Rx(Reply(id))]);
    }

    /** The push, a pause, and the reply. */
    method PushAndReply(ghost start: State, ghost run: seq<Action>, id: Id, pushed: seq<Action>)
      returns (ghost afterPush: seq<Action>)
      requires Valid() && model.receiver == Checked(id) && Runs(start, run, model) && NotReceiver(pushed)
      modifies this
      ensures Valid() && model.receiver == Ready && NotReceiver(afterPush)
      ensures Runs(start, run + [Rx(Register(id))] + afterPush + [Rx(Reply(id))], model)
      ensures model == Exec(old(model), [Rx(Register(id))] + pushed + [Rx(Reply(id))])
    {
      RunsOne(model, Rx(Register(id)));
      RunsSnoc(start, run, model, Rx(Register(id)));
      PushClient(id);
      ghost var before := model;
      afterPush := Elsewhere(pushed);
      RunsConcat(start, run + [Rx(Register(id))], before, afterPush, model);
      RunsSnoc(start, run + [Rx(Register(id))] + afterPush, model, Rx(Reply(id)));
      ExecConcat(old(model), [Rx(Register(id))], pushed);
      ExecSnoc(old(model), [Rx(Register(id))] + pushed, Rx(Reply(id)));
      model := ReceiverEffect(model, Reply(id));
    }

    // ------------------------------------------------------------ interference

    /** One step of another party, as far as it concerns the server. */
    method TakeOther(a: Action)
      requires Valid() && !a.Mon? && Enabled(model, a)
      modifies this
      ensures Valid() && model == Effect(old(model), a)
      ensures model.monitor == old(model.monitor) && previous == old(previous)
      ensures |connected| >= old(|connected|)
    {
      if a.Outside? {
        OutsideFrame(model, a.o);
      }
      model := Effect(model, a);
      connected, previous, log := model.connected, model.previous, model.log;
    }

    /** A step of another party, if it is enabled. */
    method TakeIfEnabled(ghost start: State, ghost did: seq<Action>, a: Action) returns (ghost longer: seq<Action>)
      requires Valid() && Leads(start, did, model) && OthersOnly(did) && !a.Mon?
      modifies this
      ensures Valid() && Leads(start, longer, model) && OthersOnly(longer) && model == Step(old(model), a)
      ensures model.monitor == old(model.monitor) && previous == old(previous)
      ensures |connected| >= old(|connected|)
    {
      longer := did;
      if Enabled(model, a) {
        LeadsSnoc(start, did, model, a);
        TakeOther(a);
        longer := did + [a];
      }
    }

    /** The monitor thread is preempted: the enabled ones among `actions` happen, in order. */
    method Pause(actions: seq<Action>) returns (ghost did: seq<Action>)
      requires Valid() && OthersOnly(actions)
      modifies this
      ensures Valid() && Leads(old(model), did, model) && OthersOnly(did)
      ensures model.monitor == old(model.monitor) && previous == old(previous)
      ensures |connected| >= old(|connected|)
      ensures model == Exec(old(model), actions)
    {
      did := [];
      for i := 0 to |actions|
        invariant Valid() && Leads(old(model), did, model) && OthersOnly(did)
        invariant model.monitor == old(model.monitor) && previous == old(previous)
        invariant |connected| >= old(|connected|)
        invariant model == Exec(old(model), actions[..i])
      {
        ExecIs(old(model), actions[..i + 1], actions[..i], actions[i]);
        assert actions[i] in actions;
        did := TakeIfEnabled(old(model), did, actions[i]);
      }
      assert actions[..|actions|] == actions;
    }

    /** The run so far leads from `start` to the present state, and so does what was to be done. */
    ghost predicate Sofar(start: State, run: seq<Action>, plan: seq<Action>)
      reads this
    {
      Valid() && Leads(start, run, model) && model == Exec(start, plan)
    }

    /** A pause that extends the run so far. */
    method PauseAfter(ghost start: State, ghost run: seq<Action>, ghost plan: seq<Action>,
                      actions: seq<Action>) returns (ghost longer: seq<Action>)
      requires OthersOnly(actions) && Sofar(start, run, plan)
      modifies this
      ensures Sofar(start, longer, plan + actions) && Sends(longer) == Sends(run)
      ensures model.monitor == old(model.monitor) && previous == old(previous)
      ensures |connected| >= old(|connected|) && model == Exec(old(model), actions)
    {
      ghost var before := model;
      ghost var did := Pause(actions);
      LeadsConcat(start, run, before, did, model);
      ExecConcat(start, plan, actions);
      NoSends(did);
      SendsConcat(run, did);
      longer := run + did;
    }

    /** A step of the monitor thread, which extends the run so far. */
    method Advance(ghost start: State, ghost run: seq<Action>, ghost plan: seq<Action>, m: MonitorAction)
      returns (ghost longer: seq<Action>)
      requires Leads(start, run, model) && model == Exec(start, plan)
      requires MonitorEnabled(model, m) && m != EndRound
      modifies `model
      ensures model == MonitorEffect(old(model), m)
      ensures Leads(start, longer, model) && model == Exec(start, plan + [Mon(m)])
      ensures Sends(longer) == Sends(run) + if m.SendHeartbeat? then [m] else []
    {
      LeadsSnoc(start, run, model, Mon(m));
      ExecSnoc(start, plan, Mon(m));
      SendsSnoc(run, Mon(m));
      model := MonitorEffect(model, m);
      longer := run + [Mon(m)];
    }

    // ------------------------------------------------------------ monitor thread

    method SwapLists()
      requires Valid() && model.monitor.Idle?
      modifies this
      ensures Valid() && model == Begin(old(model))
    {
      previous := connected;
      connected := [];
      model := MonitorEffect(model, StartRound(true));
    }

    /** The heartbeats to the first `next` snapshot members are sent. */
    ghost predicate Asked(start: State, run: seq<Action>, next: nat, routed: nat -> bool, others: nat -> seq<Action>)
      reads this
    {
      && next <= |previous| && model.monitor == Sending(next)
      && Sofar(start, run, SendingPlan(previous[..next], routed, others))
      && Sends(run) == Asking(previous[..next], routed)
    }

    /** A heartbeat, and a pause. */
    method SendNext(ghost start: State, ghost run: seq<Action>, next: nat, routed: nat -> bool,
                    others: nat -> seq<Action>)
      returns (ghost longer: seq<Action>)
      requires next < |previous| && Asked(start, run, next, routed, others) && OthersOnly(others(next))
      modifies this
      ensures previous == old(previous) && Asked(start, longer, next + 1, routed, others)
    {
      ghost var plan := SendingPlan(previous[..next], routed, others);
      var send := SendHeartbeat(previous[next], routed(next));
      SendingPlanSnoc(previous, routed, others, next);
      AskingSnoc(previous, routed, next);
      longer := Advance(start, run, plan, send);
      longer := PauseAfter(start, longer, plan + [Mon(send)], others(next));
    }

    /**
      One heartbeat per snapshot member, in order; `routed(k)` tells whether peer k is still routable, and
      `others(k)` happens after heartbeat k.
     */
    method SendHeartbeats(routed: nat -> bool, others: nat -> seq<Action>) returns (ghost run: seq<Action>)
      requires Valid() && model.monitor == Sending(0)
      requires forall k :: OthersOnly(others(k))
      modifies this
      ensures Valid() && Leads(old(model), run, model)
      ensures model.monitor == Waiting && previous == old(previous)
      ensures Sends(run) == Asking(previous, routed)
      ensures model.heartbeats + Used(run) == old(model).heartbeats + Routable(previous, routed)
      ensures model == Exec(old(model), SendingPlan(previous, routed, others) + [Mon(BeginWait)])
    {
      run := [];
      var next := 0;
      while next < |previous|
        invariant next <= |previous| && previous == old(previous)
        invariant Asked(old(model), run, next, routed, others)
      {
        run := SendNext(old(model), run, next, routed, others);
        next := next + 1;
      }
      assert previous[..next] == previous;
      run := Advance(old(model), run, SendingPlan(previous, routed, others), BeginWait);
      RoutableMembersAsked(old(model), run, model, previous, routed);
    }

    /** The wait that starts in `start` goes on; the last sleep began with `before` clients on the list. */
    ghost predicate Dozing(start: State, clock: nat -> int, others: nat -> seq<Action>, sleeps: nat, before: nat)
      reads this
    {
      && Valid() && model == Exec(start, WaitingPlan(others, sleeps)) && GoesOn(start, clock, others, sleeps)
      && model.monitor == Waiting && previous == start.previous
      && sleeps <= 10 && |start.connected| <= before <= |connected|
      && (0 < sleeps ==> before < Threshold(|previous|) && clock(sleeps - 1) < 10_000)
    }

    /** One sleep of the wait loop. */
    method Sleep(ghost start: State, clock: nat -> int, others: nat -> seq<Action>, sleeps: nat, ghost last: nat)
      returns (ghost before: nat)
      requires Dozing(start, clock, others, sleeps, last) && OthersOnly(others(sleeps))
      requires |connected| < Threshold(|previous|) && 1000 * sleeps <= clock(sleeps) < 10_000
      modifies this
      ensures Dozing(start, clock, others, sleeps + 1, before)
    {
      assert !Reached(start, others, sleeps);
      before := |connected|;
      ghost var did := Pause(others(sleeps));
      ExecConcat(start, WaitingPlan(others, sleeps), others(sleeps));
    }

    /** The wait loop is left. */
    method LeaveWait(ghost start: State, clock: nat -> int, others: nat -> seq<Action>, sleeps: nat, byCount: bool,
                     ghost before: nat)
      returns (ghost run: seq<Action>)
      requires Dozing(start, clock, others, sleeps, before)
      requires forall k :: OthersOnly(others(k))
      requires byCount <==> Threshold(|previous|) <= |connected|
      requires byCount || 10_000 <= clock(sleeps)
      modifies `model
      ensures Valid() && Leads(start, run, model) && model.monitor == Leaving(byCount) && Sends(run) == []
      ensures WaitEnds(start, clock, others, sleeps, byCount)
      ensures model == Exec(start, WaitingPlan(others, sleeps) + [Mon(EndWait(byCount))])
    {
      assert byCount <==> Reached(start, others, sleeps);
      WaitingPlanOthers(others, sleeps);
      run := EnabledOnes(start, WaitingPlan(others, sleeps));
      NoSends(run);
      run := Advance(start, run, WaitingPlan(others, sleeps), EndWait(byCount));
    }

    /** The sleeps of the wait loop. */
    method Doze(clock: nat -> int, others: nat -> seq<Action>) returns (sleeps: nat, ghost before: nat)
      requires Valid() && model.monitor == Waiting
      requires forall k: nat :: 1000 * k <= clock(k)
      requires forall k :: OthersOnly(others(k))
      modifies this
      ensures Dozing(old(model), clock, others, sleeps, before)
      ensures Threshold(|previous|) <= |connected| || 10_000 <= clock(sleeps)
    {
      sleeps := 0;
      before := |connected|;
      while |connected| < Threshold(|previous|) && clock(sleeps) < 10_000
        invariant Dozing(old(model), clock, others, sleeps, before)
        decreases 10 - sleeps
      {
        before := Sleep(old(model), clock, others, sleeps, before);
        sleeps := sleeps + 1;
      }
    }

    /**
      The wait loop.  `clock(k)` is the time in milliseconds since the start when the condition
      is evaluated after k sleeps of at least a second; `others(k)` happens during sleep k.
      `before` is the connected list's length ahead of the last sleep; the list only grows.
     */
    method WaitForClients(clock: nat -> int, others: nat -> seq<Action>)
      returns (sleeps: nat, byCount: bool, ghost before: nat, ghost run: seq<Action>)
      requires Valid() && model.monitor == Waiting
      requires forall k: nat :: 1000 * k <= clock(k)
      requires forall k :: OthersOnly(others(k))
      modifies this
      ensures Valid() && Leads(old(model), run, model)
      ensures model.monitor == Leaving(byCount) && previous == old(previous) && Sends(run) == []
      ensures sleeps <= 10 && old(|connected|) <= before <= |connected|
      ensures 0 < sleeps ==> before < Threshold(|previous|) && clock(sleeps - 1) < 10_000
      ensures byCount <==> Threshold(|previous|) <= |connected|
      ensures previous != [] ==> (byCount <==> |previous| <= |connected| + 1)
      ensures !byCount ==> 10_000 <= clock(sleeps)
      ensures previous == [] && |connected| < SIZE_T_MAX ==> !byCount
      ensures WaitEnds(old(model), clock, others, sleeps, byCount)
      ensures model == Exec(old(model), WaitingPlan(others, sleeps) + [Mon(EndWait(byCount))])
    {
      sleeps, before := Doze(clock, others);
      byCount := Threshold(|previous|) <= |connected|;
      run := LeaveWait(old(model), clock, others, sleeps, byCount, before);
    }

    /** The snapshot keeps the clients that are not in `seen`, in order. */
    method EraseSeen(seen: set<Id>)
      requires Valid() && model.monitor == Harvested(seen)
      modifies this
      ensures Valid() && model == MonitorEffect(old(model), Erase)
    {
      var kept := [];
      for i := 0 to |previous|
        invariant Valid() && model == old(model) && previous == old(previous)
        invariant kept == Without(previous[..i], seen)
      {
        assert previous[..i + 1][..i] == previous[..i];
        if previous[i] !in seen {
          kept := kept + [previous[i]];
        }
      }
      assert previous[..|previous|] == previous;
      previous := kept;
      model := MonitorEffect(model, Erase);
    }

    /** The first `next` remaining members are reported. */
    ghost predicate Reported(start: State, run: seq<Action>, next: nat, others: nat -> seq<Action>)
      reads this
    {
      && next <= |previous| && model.monitor == Reporting(next)
      && Sofar(start, run, ReportingPlan(previous[..next], others))
    }

    /** A report, and a pause. */
    method ReportNext(ghost start: State, ghost run: seq<Action>, next: nat, others: nat -> seq<Action>)
      returns (ghost longer: seq<Action>)
      requires next < |previous| && Reported(start, run, next, others) && OthersOnly(others(next))
      modifies this
      ensures previous == old(previous) && Reported(start, longer, next + 1, others)
    {
      ghost var plan := ReportingPlan(previous[..next], others);
      var report := Report(previous[next]);
      ReportingPlanSnoc(previous, others, next);
      log := log + [Entry(previous[next], Disconnection)];
      longer := Advance(start, run, plan, report);
      longer := PauseAfter(start, longer, plan + [Mon(report)], others(next));
    }

    /** One Disconnection entry per remaining snapshot member, in order. */
    method ReportMissing(others: nat -> seq<Action>) returns (ghost run: seq<Action>)
      requires Valid() && model.monitor == Reporting(0)
      requires forall k :: OthersOnly(others(k))
      modifies this
      ensures Valid() && Leads(old(model), run, model)
      ensures previous == old(previous) && model.monitor == Reporting(|previous|)
      ensures model == Exec(old(model), ReportingPlan(previous, others))
    {
      run := [];
      var next := 0;
      while next < |previous|
        invariant next <= |previous| && previous == old(previous)
        invariant Reported(old(model), run, next, others)
      {
        run := ReportNext(old(model), run, next, others);
        next := next + 1;
      }
      assert previous[..next] == previous;
    }

    /** The locked read of the connected list, and the erase that follows it. */
    method HarvestSeen(others: seq<Action>) returns (ghost run: seq<Action>)
      requires Valid() && model.monitor.Leaving? && OthersOnly(others)
      modifies this
      ensures Valid() && Leads(old(model), run, model)
      ensures model.monitor == Reporting(0)
      ensures model == Exec(old(model), [Mon(Harvest)] + others + [Mon(Erase)])
      ensures previous == Without(old(previous), Elements(old(connected)))
    {
      var seen := set id | id in connected;
      run := Advance(old(model), [], [], Harvest);
      assert [] + [Mon(Harvest)] == [Mon(Harvest)];
      run := PauseAfter(old(model), run, [Mon(Harvest)], others);
      LeadsSnoc(old(model), run, model, Mon(Erase));
      ExecSnoc(old(model), [Mon(Harvest)] + others, Mon(Erase));
      EraseSeen(seen);
      run := run + [Mon(Erase)];
    }

    /**
      HandleClientDisconnected.  Whatever the other thread, the clients and the network do in
      between any two of its accesses to shared data, the call is one complete round of the
      transition system, in which every snapshot member is asked in order, and of the others' steps exactly
      the enabled ones happen.  The wait ends after `sleeps` sleeps; `missing` are the members reported.
     */
    method HandleClientDisconnected(online: bool, routed: nat -> bool, clock: nat -> int, others: Interference)
      returns (ghost run: seq<Action>, ghost sleeps: nat, ghost byCount: bool, ghost missing: seq<Id>)
      requires Valid() && model.monitor.Idle?
      requires forall k: nat :: 1000 * k <= clock(k)
      requires others.NoMonitor()
      modifies this
      ensures Valid()
      ensures !online ==> model == old(model)
      ensures online ==> CompleteRound(old(model), run) && model == Finish(old(model), run)
      ensures online ==> Sends(run) == Asking(old(connected), routed)
      ensures online ==> model.heartbeats + Used(run) == old(model).heartbeats + Routable(old(connected), routed)
      ensures online ==>
        AsPlanned(Begin(old(model)), old(connected), routed, clock, others, sleeps, byCount, missing,
          Exec(Begin(old(model)), run))
    {
      run, sleeps, byCount, missing := [], 0, false, [];
      if !online {
        return;
      }
      SwapLists();
      run, sleeps, byCount, missing := RunRound(routed, clock, others);
      previous := [];
      model := MonitorEffect(model, EndRound);
    }

    /** The round from the swap to the last report. */
    method RunRound(routed: nat -> bool, clock: nat -> int, others: Interference)
      returns (ghost run: seq<Action>, ghost sleeps: nat, ghost byCount: bool, ghost missing: seq<Id>)
      requires Valid() && model.monitor == Sending(0)
      requires forall k: nat :: 1000 * k <= clock(k)
      requires others.NoMonitor()
      modifies this
      ensures Valid() && Leads(old(model), run, model) && model.monitor == Reporting(|previous|)
      ensures Sends(run) == Asking(old(previous), routed)
      ensures model.heartbeats + Used(run) == old(model).heartbeats + Routable(old(previous), routed)
      ensures AsPlanned(old(model), old(previous), routed, clock, others, sleeps, byCount, missing, model)
    {
      ghost var begun, snapshot := model, previous;
      run := Pause(others.swapped);
      NoSends(run);
      run := Ask(begun, run, routed, others);
      run, sleeps, byCount := Await(begun, run, AskingPlan(snapshot, routed, others), clock, others);
      ghost var plan := AskingPlan(snapshot, routed, others)
        + (WaitingPlan(others.waiting, sleeps) + [Mon(EndWait(byCount))]);
      run := PauseAfter(begun, run, plan, others.left);
      run := HarvestAfter(begun, run, plan + others.left, others);
      missing := previous;
      run := ReportAfter(begun, run, ErasingPlan(snapshot, routed, others, sleeps, byCount), others);
      RoutableMembersAsked(begun, run, model, snapshot, routed);
    }

    /** The heartbeats, after the pause that follows the swap. */
    method Ask(ghost begun: State, ghost run: seq<Action>, routed: nat -> bool, others: Interference)
      returns (ghost longer: seq<Action>)
      requires Sofar(begun, run, others.swapped) && model.monitor == Sending(0) && others.NoMonitor()
      requires Sends(run) == []
      modifies this
      ensures Sofar(begun, longer, AskingPlan(old(previous), routed, others))
      ensures model.monitor == Waiting && Sends(longer) == Asking(old(previous), routed)
    {
      ghost var before := model;
      ghost var sent := SendHeartbeats(routed, others.sending);
      longer := Joined(begun, run, others.swapped, before, sent,
        SendingPlan(previous, routed, others.sending) + [Mon(BeginWait)]);
    }

    /** What was done after the run so far extends it. */
    ghost method Joined(begun: State, run: seq<Action>, plan: seq<Action>, before: State, more: seq<Action>,
                        doing: seq<Action>)
      returns (longer: seq<Action>)
      requires Leads(begun, run, before) && before == Exec(begun, plan)
      requires Valid() && Leads(before, more, model) && model == Exec(before, doing)
      ensures Sofar(begun, longer, plan + doing) && Sends(longer) == Sends(run) + Sends(more)
    {
      LeadsConcat(begun, run, before, more, model);
      ExecConcat(begun, plan, doing);
      SendsConcat(run, more);
      longer := run + more;
    }

    /** The wait. */
    method Await(ghost begun: State, ghost run: seq<Action>, ghost plan: seq<Action>, clock: nat -> int,
                 others: Interference)
      returns (ghost longer: seq<Action>, sleeps: nat, byCount: bool)
      requires Sofar(begun, run, plan) && model.monitor == Waiting && others.NoMonitor()
      requires forall k: nat :: 1000 * k <= clock(k)
      modifies this
      ensures Sofar(begun, longer, plan + (WaitingPlan(others.waiting, sleeps) + [Mon(EndWait(byCount))]))
      ensures model.monitor.Leaving? && Sends(longer) == Sends(run)
      ensures WaitEnds(old(model), clock, others.waiting, sleeps, byCount)
    {
      ghost var before := model;
      ghost var last, waited;
      sleeps, byCount, last, waited := WaitForClients(clock, others.waiting);
      longer := Joined(begun, run, plan, before, waited,
        WaitingPlan(others.waiting, sleeps) + [Mon(EndWait(byCount))]);
    }

    /** The harvest and the erase. */
    method HarvestAfter(ghost begun: State, ghost run: seq<Action>, ghost plan: seq<Action>, others: Interference)
      returns (ghost longer: seq<Action>)
      requires Sofar(begun, run, plan) && model.monitor.Leaving? && others.NoMonitor()
      modifies this
      ensures Sofar(begun, longer, plan + ([Mon(Harvest)] + others.harvested + [Mon(Erase)]))
      ensures model.monitor == Reporting(0) && Sends(longer) == Sends(run)
    {
      ghost var before := model;
      ghost var told := HarvestSeen(others.harvested);
      NoSendsLater(before, told, model);
      longer := Joined(begun, run, plan, before, told, [Mon(Harvest)] + others.harvested + [Mon(Erase)]);
    }

    /** A pause, and the reports. */
    method ReportAfter(ghost begun: State, ghost run: seq<Action>, ghost plan: seq<Action>, others: Interference)
      returns (ghost longer: seq<Action>)
      requires Sofar(begun, run, plan) && model.monitor == Reporting(0) && others.NoMonitor()
      modifies this
      ensures Sofar(begun, longer, plan + others.erased + ReportingPlan(old(previous), others.reporting))
      ensures model.monitor == Reporting(|previous|) && Sends(longer) == Sends(run)
    {
      longer := PauseAfter(begun, run, plan, others.erased);
      ghost var before := model;
      ghost var reported := ReportMissing(others.reporting);
      NoSendsLater(before, reported, model);
      longer := Joined(begun, longer, plan + others.erased, before, reported,
        ReportingPlan(previous, others.reporting));
    }
  }
}
