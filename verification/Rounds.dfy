/**
  One disconnect round, from the swap to the clear, with every other step of the system
  interleaved freely: what it conserves and whom it reports.
 */
module Rounds {
  import opened Protocol
  import opened Sequences
  import opened Tokens
  import opened Alternation

  /** The identities pushed by the actions, in order. */
  function Registrations(run: seq<Action>): seq<Id> {
    if run == [] then []
    else
      var before, last := run[..|run|-1], run[|run|-1];
      Registrations(before) + (if last.Rx? && last.r.Register? then [last.r.id] else [])
  }

  /** The identities reported as disconnected by the actions, in order. */
  function Reports(run: seq<Action>): seq<Id> {
    if run == [] then []
    else
      var before, last := run[..|run|-1], run[|run|-1];
      Reports(before) + (if last.Mon? && last.m.Report? then [last.m.id] else [])
  }

  /** The identities pushed before the (last) harvest. */
  function SeenAtHarvest(run: seq<Action>): seq<Id> {
    if run == [] then []
    else
      var before, last := run[..|run|-1], run[|run|-1];
      if last == Mon(Harvest) then Registrations(before) else SeenAtHarvest(before)
  }

  predicate LeftByCount(run: seq<Action>) {
    Mon(EndWait(true)) in run
  }

  /** The identities with a Disconnection entry, oldest entry first. */
  function Disconnections(log: seq<Entry>): seq<Id> {
    if log == [] then []
    else
      var last := log[|log|-1];
      Disconnections(log[..|log|-1]) + (if last.kind == Disconnection then [last.id] else [])
  }

  function Begin(s: State): State {
    Step(s, Mon(StartRound(true)))
  }

  /** `run` is everything that happens between the swap and the final clear of one round. */
  ghost predicate CompleteRound(s: State, run: seq<Action>) {
    && s.monitor.Idle?
    && Legal(Begin(s), run)
    && Mon(EndRound) !in run
    && Enabled(Exec(Begin(s), run), Mon(EndRound))
  }

  function Finish(s: State, run: seq<Action>): State {
    Step(Exec(Begin(s), run), Mon(EndRound))
  }

  ghost predicate RoundInv(s: State, run: seq<Action>, t: State) {
    && t.connected == Registrations(run)
    && SeenAtHarvest(run) <= Registrations(run)
    && Disconnections(t.log) == Disconnections(s.log) + Reports(run)
    && match t.monitor
       case Idle => false
       case Sending(_) => t.previous == s.connected && Reports(run) == [] && !LeftByCount(run)
       case Waiting => t.previous == s.connected && Reports(run) == [] && !LeftByCount(run)
       case Leaving(byCount) =>
         && t.previous == s.connected && Reports(run) == []
         && (LeftByCount(run) ==> Threshold(|s.connected|) <= |t.connected|)
       case Harvested(seen) =>
         && t.previous == s.connected && Reports(run) == []
         && seen == Elements(SeenAtHarvest(run))
         && (LeftByCount(run) ==> Threshold(|s.connected|) <= |SeenAtHarvest(run)|)
       case Reporting(next) =>
         && t.previous == Without(s.connected, Elements(SeenAtHarvest(run)))
         && next <= |t.previous| && Reports(run) == t.previous[..next]
         && (LeftByCount(run) ==> Threshold(|s.connected|) <= |SeenAtHarvest(run)|)
  }

  lemma DisconnectionsSnoc(log: seq<Entry>, e: Entry)
    ensures Disconnections(log + [e]) == Disconnections(log) + (if e.kind == Disconnection then [e.id] else [])
  {
    assert (log + [e])[..|log|] == log;
  }

  /** What one more action adds to the run's history functions. */
  lemma HistorySnoc(run: seq<Action>, a: Action)
    ensures Registrations(run + [a])
         == if a.Rx? && a.r.Register? then Registrations(run) + [a.r.id] else Registrations(run)
    ensures Reports(run + [a]) == if a.Mon? && a.m.Report? then Reports(run) + [a.m.id] else Reports(run)
    ensures SeenAtHarvest(run + [a]) == if a == Mon(Harvest) then Registrations(run) else SeenAtHarvest(run)
    ensures LeftByCount(run + [a]) <==> LeftByCount(run) || a == Mon(EndWait(true))
  {
    assert (run + [a])[..|run|] == run;
  }

  lemma RoundReceiverStep(s: State, run: seq<Action>, t: State, r: ReceiverAction)
    requires RoundInv(s, run, t) && ReceiverEnabled(t, r)
    ensures RoundInv(s, run + [Rx(r)], ReceiverEffect(t, r))
  {
    HistorySnoc(run, Rx(r));
    if r.Check? {
      DisconnectionsSnoc(t.log, Entry(r.id, Connection));
    }
  }

  lemma {:induction false} RoundReportStep(s: State, run: seq<Action>, t: State, id: Id)
    requires RoundInv(s, run, t) && MonitorEnabled(t, Report(id))
    ensures RoundInv(s, run + [Mon(Report(id))], MonitorEffect(t, Report(id)))
  {
    var more := run + [Mon(Report(id))];
    assert Registrations(more) == Registrations(run) && Reports(more) == Reports(run) + [id]
        && SeenAtHarvest(more) == SeenAtHarvest(run) && LeftByCount(more) == LeftByCount(run) by {
      HistorySnoc(run, Mon(Report(id)));
    }
    DisconnectionsSnoc(t.log, Entry(id, Disconnection));
    var k := t.monitor.next;
    assert t.previous[..k + 1] == t.previous[..k] + [id];
    assert Disconnections(s.log) + (Reports(run) + [id]) == (Disconnections(s.log) + Reports(run)) + [id];
    var u := MonitorEffect(t, Report(id));
    assert u.monitor == Reporting(k + 1) && u.previous == t.previous && u.connected == t.connected;
  }

  lemma RoundHarvestStep(s: State, run: seq<Action>, t: State, m: MonitorAction)
    requires RoundInv(s, run, t) && MonitorEnabled(t, m) && (m.Harvest? || m.Erase?)
    ensures RoundInv(s, run + [Mon(m)], MonitorEffect(t, m))
  {
    HistorySnoc(run, Mon(m));
  }

  lemma RoundWaitStep(s: State, run: seq<Action>, t: State, m: MonitorAction)
    requires RoundInv(s, run, t) && MonitorEnabled(t, m)
    requires m.StartRound? || m.SendHeartbeat? || m.BeginWait? || m.EndWait?
    ensures RoundInv(s, run + [Mon(m)], MonitorEffect(t, m))
  {
    HistorySnoc(run, Mon(m));
  }

  lemma RoundMonitorStep(s: State, run: seq<Action>, t: State, m: MonitorAction)
    requires RoundInv(s, run, t) && MonitorEnabled(t, m) && m != EndRound
    ensures RoundInv(s, run + [Mon(m)], MonitorEffect(t, m))
  {
    if m.Report? {
      RoundReportStep(s, run, t, m.id);
    } else if m.Harvest? || m.Erase? {
      RoundHarvestStep(s, run, t, m);
    } else {
      RoundWaitStep(s, run, t, m);
    }
  }

  lemma RoundOutsideStep(s: State, run: seq<Action>, t: State, o: OutsideAction)
    requires RoundInv(s, run, t) && OutsideEnabled(t, o)
    ensures RoundInv(s, run + [Outside(o)], OutsideEffect(t, o))
  {
    HistorySnoc(run, Outside(o));
    OutsideFrame(t, o);
  }

  lemma {:induction false} RoundInvHolds(s: State, run: seq<Action>)
    requires s.monitor.Idle? && Legal(Begin(s), run) && Mon(EndRound) !in run
    ensures RoundInv(s, run, Exec(Begin(s), run))
    decreases |run|
  {
    if run != [] {
      var n := |run| - 1;
      var before, a := run[..n], run[n];
      LegalPrefix(Begin(s), run, n);
      RoundInvHolds(s, before);
      assert before + [a] == run;
      assert Enabled(Exec(Begin(s), before), a);
      match a
      case Outside(o) => RoundOutsideStep(s, before, Exec(Begin(s), before), o);
      case Rx(r) => RoundReceiverStep(s, before, Exec(Begin(s), before), r);
      case Mon(m) => RoundMonitorStep(s, before, Exec(Begin(s), before), m);
    }
  }

  lemma {:induction false} Split(s: seq<Id>, seen: set<Id>)
    ensures multiset(s) == multiset(Without(s, seen)) + multiset(Within(s, seen))
    ensures |s| == |Without(s, seen)| + |Within(s, seen)|
  {
    if s != [] {
      var rest, x := s[..|s|-1], s[|s|-1];
      Split(rest, seen);
      assert multiset(s) == multiset(rest) + multiset{x} by {
        assert s == rest + [x];
      }
      if x in seen {
        assert Without(s, seen) == Without(rest, seen) && Within(s, seen) == Within(rest, seen) + [x];
      } else {
        assert Without(s, seen) == Without(rest, seen) + [x] && Within(s, seen) == Within(rest, seen);
      }
    }
  }

  /** What the round invariant says when the round is over. */
  lemma RoundEnds(s: State, run: seq<Action>)
    requires CompleteRound(s, run)
    ensures var t := Finish(s, run);
      && Reports(run) == Without(s.connected, Elements(SeenAtHarvest(run)))
      && Disconnections(t.log) == Disconnections(s.log) + Reports(run)
      && SeenAtHarvest(run) <= Registrations(run)
      && t.connected == Registrations(run)
      && t.previous == [] && t.monitor.Idle?
      && (LeftByCount(run) && 0 < |s.connected| ==> |s.connected| - 1 <= |SeenAtHarvest(run)|)
  {
    RoundInvHolds(s, run);
    var t := Exec(Begin(s), run);
    assert t.previous[..|t.previous|] == t.previous;
  }

  /**
    Conservation over a round.  The reports are the snapshot minus the identities pushed
    before the harvest, in snapshot order; snapshot = reported + seen again, as multisets;
    the connected list afterwards is every identity pushed since the swap, in order.
   */
  lemma {:induction false} RoundConserves(s: State, run: seq<Action>)
    requires CompleteRound(s, run)
    ensures var t, seen := Finish(s, run), Elements(SeenAtHarvest(run));
      && Reports(run) == Without(s.connected, seen)
      && multiset(s.connected) == multiset(Reports(run)) + multiset(Within(s.connected, seen))
      && Disconnections(t.log) == Disconnections(s.log) + Reports(run)
      && SeenAtHarvest(run) <= Registrations(run)
      && t.connected == Registrations(run)
      && t.previous == [] && t.monitor.Idle?
  {
    RoundEnds(s, run);
    Split(s.connected, Elements(SeenAtHarvest(run)));
  }

  // ---------------------------------------------------------------- counting

  lemma {:induction false} ElementCount(s: seq<Id>)
    requires Distinct(s)
    ensures |Elements(s)| == |s|
  {
    if s == [] {
      assert Elements(s) == {};
    } else {
      var rest, x := s[..|s|-1], s[|s|-1];
      ElementCount(rest);
      assert s == rest + [x];
      assert x !in rest;
      assert Elements(s) == Elements(rest) + {x};
    }
  }

  lemma {:induction false} WithinMembers(s: seq<Id>, keep: set<Id>)
    ensures forall x :: x in Within(s, keep) <==> x in s && x in keep
    ensures Distinct(s) ==> Distinct(Within(s, keep))
  {
    if s != [] {
      var rest, x := s[..|s|-1], s[|s|-1];
      WithinMembers(rest, keep);
      assert s == rest + [x];
      assert forall y :: y in s <==> y in rest || y == x;
      if Distinct(s) {
        assert x !in rest;
      }
    }
  }

  /** Two duplicate-free lists share equally many members, counted from either side. */
  lemma CommonMembers(a: seq<Id>, b: seq<Id>)
    requires Distinct(a) && Distinct(b)
    ensures |Within(a, Elements(b))| == |Within(b, Elements(a))|
  {
    WithinMembers(a, Elements(b));
    WithinMembers(b, Elements(a));
    ElementCount(Within(a, Elements(b)));
    ElementCount(Within(b, Elements(a)));
    assert Elements(Within(a, Elements(b))) == Elements(Within(b, Elements(a)));
  }

  lemma Pigeonhole(snapshot: seq<Id>, seen: seq<Id>)
    requires Distinct(snapshot) && Distinct(seen)
    ensures |Without(snapshot, Elements(seen))| == |snapshot| - |seen| + |Without(seen, Elements(snapshot))|
  {
    Split(snapshot, Elements(seen));
    Split(seen, Elements(snapshot));
    CommonMembers(snapshot, seen);
  }

  /** Members of the round that were not in its snapshot. */
  function Newcomers(s: State, run: seq<Action>): seq<Id> {
    Without(SeenAtHarvest(run), Elements(s.connected))
  }

  lemma SeenDistinct(past: seq<Action>, run: seq<Action>)
    requires CompleteRound(Exec(Init, past), run)
    ensures Distinct(Exec(Init, past).connected) && Distinct(SeenAtHarvest(run))
  {
    AtMostOneToken(past);
    RoundInvHolds(Exec(Init, past), run);
    ExecSnoc(Init, past, Mon(StartRound(true)));
    ExecConcat(Init, past + [Mon(StartRound(true))], run);
    AtMostOneToken(past + [Mon(StartRound(true))] + run);
  }

  /** The lists of a reachable round, freed from the states they come from. */
  lemma {:induction false} RoundLists(past: seq<Action>, run: seq<Action>, snapshot: seq<Id>, seen: seq<Id>)
    requires CompleteRound(Exec(Init, past), run)
    requires snapshot == Exec(Init, past).connected && seen == SeenAtHarvest(run)
    ensures Distinct(snapshot) && Distinct(seen)
    ensures Reports(run) == Without(snapshot, Elements(seen))
    ensures LeftByCount(run) && 0 < |snapshot| ==> |snapshot| - 1 <= |seen|
  {
    assert Distinct(snapshot) && Distinct(seen) by {
      SeenDistinct(past, run);
    }
    assert Reports(run) == Without(snapshot, Elements(seen))
        && (LeftByCount(run) && 0 < |snapshot| ==> |snapshot| - 1 <= |seen|) by {
      RoundEnds(Exec(Init, past), run);
    }
  }

  /**
    Pigeonhole.  In every reachable round over a non-empty snapshot the number of reports is
    the snapshot's size minus the arrivals plus the newcomers among them; so a round that
    leaves its wait by the count reports at most one client more than there were newcomers.
   */
  lemma {:induction false} ReportCount(past: seq<Action>, run: seq<Action>)
    requires CompleteRound(Exec(Init, past), run)
    ensures var s := Exec(Init, past);
      && |Reports(run)| == |s.connected| - |SeenAtHarvest(run)| + |Newcomers(s, run)|
      && (LeftByCount(run) && 0 < |s.connected| ==> |Reports(run)| <= 1 + |Newcomers(s, run)|)
  {
    var snapshot := Exec(Init, past).connected;
    RoundLists(past, run, snapshot, SeenAtHarvest(run));
    Pigeonhole(snapshot, SeenAtHarvest(run));
  }

  lemma {:induction false} WithoutAll(s: seq<Id>, drop: set<Id>)
    requires forall x :: x in s ==> x in drop
    ensures Without(s, drop) == []
  {
    if s != [] {
      assert s[|s|-1] in s;
      WithoutAll(s[..|s|-1], drop);
    }
  }

  lemma {:induction false} OnlyOneLeft(s: seq<Id>, seen: set<Id>, silent: Id)
    requires Distinct(s) && silent in s
    requires forall x :: x in s ==> (x == silent <==> x !in seen)
    ensures Without(s, seen) == [silent]
  {
    var rest, x := s[..|s|-1], s[|s|-1];
    assert s == rest + [x];
    if x == silent {
      assert x !in rest;
      WithoutAll(rest, seen);
    } else {
      assert x in s;
      OnlyOneLeft(rest, seen, silent);
    }
  }

  /** Exactly one member of the snapshot was never seen. */
  ghost predicate OnlySilent(snapshot: seq<Id>, seen: seq<Id>, silent: Id) {
    silent in snapshot && forall x :: x in snapshot ==> (x == silent <==> x !in seen)
  }

  lemma OnlySilentIsReported(snapshot: seq<Id>, seen: seq<Id>, silent: Id)
    requires Distinct(snapshot)
    ensures OnlySilent(snapshot, seen, silent) <==> Without(snapshot, Elements(seen)) == [silent]
  {
    var reports := Without(snapshot, Elements(seen));
    WithoutMembers(snapshot, Elements(seen));
    if OnlySilent(snapshot, seen, silent) {
      OnlyOneLeft(snapshot, Elements(seen), silent);
    }
    if reports == [silent] {
      assert silent in reports;
      assert forall x :: x in reports <==> x == silent;
    }
  }

  /**
    Exact detection of a single failure.  If only snapshot members arrive and the round leaves
    by the count, at most one client is reported; and a client is the only one reported iff it
    is the only snapshot member that stays silent up to the harvest.
   */
  lemma {:induction false} SingleFailure(past: seq<Action>, run: seq<Action>, silent: Id)
    requires var s := Exec(Init, past);
      && CompleteRound(s, run) && LeftByCount(run)
      && 0 < |s.connected|
      && (forall x :: x in SeenAtHarvest(run) ==> x in s.connected)
    ensures |Reports(run)| <= 1
    ensures OnlySilent(Exec(Init, past).connected, SeenAtHarvest(run), silent) <==> Reports(run) == [silent]
  {
    var snapshot := Exec(Init, past).connected;
    RoundLists(past, run, snapshot, SeenAtHarvest(run));
    ReportCount(past, run);
    WithoutAll(SeenAtHarvest(run), Elements(snapshot));
    OnlySilentIsReported(snapshot, SeenAtHarvest(run), silent);
  }
}
