/** The heartbeats of a run: which are asked for, which get onto the wire, and what becomes of them. */
module Heartbeats {
  import opened Protocol
  import opened Sequences
  import opened Tokens

  /** The heartbeats that the monitor thread sends in a run, in order. */
  function Sends(run: seq<Action>): seq<MonitorAction> {
    if run == [] then []
    else
      var before, last := run[..|run|-1], run[|run|-1];
      Sends(before) + (if last.Mon? && last.m.SendHeartbeat? then [last.m] else [])
  }

  /** The heartbeats that get onto the wire. */
  function OnWire(sends: seq<MonitorAction>): multiset<Id> {
    if sends == [] then multiset{}
    else
      var last := sends[|sends|-1];
      OnWire(sends[..|sends|-1]) + (if last.SendHeartbeat? && last.routed then multiset{last.id} else multiset{})
  }

  /** The heartbeats that a client takes or refuses or the network loses. */
  function Used(run: seq<Action>): multiset<Id> {
    if run == [] then multiset{}
    else
      var before, last := run[..|run|-1], run[|run|-1];
      if last.Outside? && (last.o.TakeHeartbeat? || last.o.RefuseHeartbeat? || last.o.LoseHeartbeat?)
      then Used(before) + multiset{last.o.id}
      else Used(before)
  }

  /** One heartbeat for each identity of `snapshot`, in order; `routed(k)` tells whether peer k is routable. */
  function Asking(snapshot: seq<Id>, routed: nat -> bool): seq<MonitorAction> {
    seq(|snapshot|, k requires 0 <= k < |snapshot| => SendHeartbeat(snapshot[k], routed(k)))
  }

  /** The routable members of the snapshot. */
  function Routable(snapshot: seq<Id>, routed: nat -> bool): multiset<Id> {
    if snapshot == [] then multiset{}
    else
      var n := |snapshot| - 1;
      Routable(snapshot[..n], routed) + (if routed(n) then multiset{snapshot[n]} else multiset{})
  }

  lemma SendsSnoc(run: seq<Action>, a: Action)
    ensures Sends(run + [a]) == Sends(run) + if a.Mon? && a.m.SendHeartbeat? then [a.m] else []
  {
    assert (run + [a])[..|run|] == run;
  }

  lemma {:induction false} SendsConcat(first: seq<Action>, second: seq<Action>)
    ensures Sends(first + second) == Sends(first) + Sends(second)
    decreases |second|
  {
    if second == [] {
      assert first + second == first;
    } else {
      var init, last := second[..|second|-1], second[|second|-1];
      SendsConcat(first, init);
      assert Sends(second) == Sends(init) + if last.Mon? && last.m.SendHeartbeat? then [last.m] else [];
      assert (first + init) + [last] == first + second;
      SendsSnoc(first + init, last);
    }
  }

  lemma {:induction false} NoSends(run: seq<Action>)
    requires forall a :: a in run ==> !(a.Mon? && a.m.SendHeartbeat?)
    ensures Sends(run) == []
  {
    if run != [] {
      NoSends(run[..|run|-1]);
    }
  }

  lemma EnabledLast(s: State, run: seq<Action>)
    requires Legal(s, run) && run != []
    ensures Legal(s, run[..|run|-1]) && Enabled(Exec(s, run[..|run|-1]), run[|run|-1])
  {
    LegalPrefix(s, run, |run| - 1);
  }

  /** The last step of a run. */
  lemma LastStep(s: State, run: seq<Action>, t: State) returns (before: seq<Action>, u: State, a: Action)
    requires Runs(s, run, t) && run != []
    ensures run == before + [a] && Runs(s, before, u) && Enabled(u, a) && t == Step(u, a)
  {
    before, a := run[..|run|-1], run[|run|-1];
    u := Exec(s, before);
    EnabledLast(s, run);
  }

  lemma Balance(s: multiset<Id>, u: multiset<Id>, t: multiset<Id>, used: multiset<Id>, sent: multiset<Id>,
                usedNow: multiset<Id>, sentNow: multiset<Id>)
    requires u + used == s + sent && t + usedNow == u + sentNow
    ensures t + (used + usedNow) == s + (sent + sentNow)
  {
    assert t + (used + usedNow) == (t + usedNow) + used;
    assert (u + sentNow) + used == (u + used) + sentNow;
  }

  lemma ConservedSnoc(s: multiset<Id>, u: multiset<Id>, t: multiset<Id>, run: seq<Action>, a: Action)
    requires u + Used(run) == s + OnWire(Sends(run)) && t + HeartbeatUsed(a) == u + HeartbeatSent(a)
    ensures t + Used(run + [a]) == s + OnWire(Sends(run + [a]))
  {
    UsedSnoc(run, a);
    SendsSnoc(run, a);
    OnWireSnoc(Sends(run), a);
    assert Sends(run + [a]) == if a.Mon? && a.m.SendHeartbeat? then Sends(run) + [a.m] else Sends(run);
    Balance(s, u, t, Used(run), OnWire(Sends(run)), HeartbeatUsed(a), HeartbeatSent(a));
  }

  /** The heartbeats under way after a run: those before it and those sent, less those used up. */
  lemma {:induction false} HeartbeatsConserved(s: State, run: seq<Action>, t: State)
    requires Runs(s, run, t)
    ensures t.heartbeats + Used(run) == s.heartbeats + OnWire(Sends(run))
    decreases |run|
  {
    if run != [] {
      var before, u, a := LastStep(s, run, t);
      HeartbeatsConserved(s, before, u);
      HeartbeatStep(u, a);
      ConservedSnoc(s.heartbeats, u.heartbeats, t.heartbeats, before, a);
    }
  }

  function HeartbeatUsed(a: Action): multiset<Id> {
    if a.Outside? && (a.o.TakeHeartbeat? || a.o.RefuseHeartbeat? || a.o.LoseHeartbeat?) then multiset{a.o.id}
    else multiset{}
  }

  function HeartbeatSent(a: Action): multiset<Id> {
    if a.Mon? && a.m.SendHeartbeat? && a.m.routed then multiset{a.m.id} else multiset{}
  }

  lemma HeartbeatStep(s: State, a: Action)
    requires Enabled(s, a)
    ensures Effect(s, a).heartbeats + HeartbeatUsed(a) == s.heartbeats + HeartbeatSent(a)
  {
    match a {
      case Outside(o) =>
        OutsideHeartbeats(s, o);
      case Rx(r) =>
      case Mon(m) =>
    }
  }

  lemma OutsideHeartbeats(s: State, o: OutsideAction)
    requires OutsideEnabled(s, o)
    ensures OutsideEffect(s, o).heartbeats + HeartbeatUsed(Outside(o)) == s.heartbeats
  {
  }

  lemma UsedSnoc(run: seq<Action>, a: Action)
    ensures Used(run + [a]) == Used(run) + HeartbeatUsed(a)
  {
    assert (run + [a])[..|run|] == run;
  }

  lemma OnWireSnoc(sends: seq<MonitorAction>, a: Action)
    ensures OnWire(if a.Mon? && a.m.SendHeartbeat? then sends + [a.m] else sends)
         == OnWire(sends) + HeartbeatSent(a)
  {
    if a.Mon? && a.m.SendHeartbeat? {
      assert (sends + [a.m])[..|sends|] == sends;
    }
  }

  lemma AskingSnoc(snapshot: seq<Id>, routed: nat -> bool, k: nat)
    requires k < |snapshot|
    ensures Asking(snapshot[..k + 1], routed)
         == Asking(snapshot[..k], routed) + [SendHeartbeat(snapshot[k], routed(k))]
  {
  }

  lemma {:induction false} AskingOnWire(snapshot: seq<Id>, routed: nat -> bool)
    ensures OnWire(Asking(snapshot, routed)) == Routable(snapshot, routed)
  {
    if snapshot != [] {
      var n := |snapshot| - 1;
      AskingOnWire(snapshot[..n], routed);
      AskingSnoc(snapshot, routed, n);
      assert snapshot[..n + 1] == snapshot;
      var init := Asking(snapshot[..n], routed);
      OnWireSnoc(init, Mon(SendHeartbeat(snapshot[n], routed(n))));
    }
  }

  ghost predicate IsRoutable(snapshot: seq<Id>, routed: nat -> bool, id: Id) {
    exists k :: 0 <= k < |snapshot| && snapshot[k] == id && routed(k)
  }

  lemma {:induction false} RoutableMember(snapshot: seq<Id>, routed: nat -> bool, id: Id)
    requires Distinct(snapshot)
    ensures id !in snapshot ==> Routable(snapshot, routed)[id] == 0
    ensures forall k ::
      0 <= k < |snapshot| && snapshot[k] == id ==> Routable(snapshot, routed)[id] == if routed(k) then 1 else 0
  {
    if snapshot != [] {
      RoutableMember(snapshot[..|snapshot|-1], routed, id);
    }
  }

  /**
    A run that asks the snapshot: with nothing taken, refused or lost, exactly one heartbeat more is under way
    to every routable member and none to anybody else.
   */
  lemma RoutableMembersAsked(s: State, run: seq<Action>, t: State, snapshot: seq<Id>, routed: nat -> bool)
    requires Runs(s, run, t) && Sends(run) == Asking(snapshot, routed)
    ensures t.heartbeats + Used(run) == s.heartbeats + Routable(snapshot, routed)
    ensures Distinct(snapshot) && Used(run) == multiset{} ==>
      forall id :: t.heartbeats[id] == s.heartbeats[id] + if IsRoutable(snapshot, routed, id) then 1 else 0
  {
    HeartbeatsConserved(s, run, t);
    AskingOnWire(snapshot, routed);
    if Distinct(snapshot) && Used(run) == multiset{} {
      var more := Routable(snapshot, routed);
      assert t.heartbeats == s.heartbeats + more;
      forall id ensures more[id] == if IsRoutable(snapshot, routed, id) then 1 else 0 {
        RoutableMember(snapshot, routed, id);
      }
    }
  }

  /** After the end of the sending nothing is sent before the next round. */
  lemma {:induction false} NoSendsLater(s: State, run: seq<Action>, t: State)
    requires Runs(s, run, t) && Mon(EndRound) !in run && !s.monitor.Idle? && !s.monitor.Sending?
    ensures Sends(run) == [] && !t.monitor.Idle? && !t.monitor.Sending?
    decreases |run|
  {
    if run != [] {
      var before, u, a := LastStep(s, run, t);
      NoSendsLater(s, before, u);
      assert a in run;
      SendsSnoc(before, a);
      NoSendLater(u, a);
    }
  }

  lemma NoSendLater(s: State, a: Action)
    requires Enabled(s, a) && a != Mon(EndRound) && !s.monitor.Idle? && !s.monitor.Sending?
    ensures !(a.Mon? && a.m.SendHeartbeat?)
    ensures !Effect(s, a).monitor.Idle? && !Effect(s, a).monitor.Sending?
  {
    if a.Outside? {
      OutsideFrame(s, a.o);
    }
  }
}
