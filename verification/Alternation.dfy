/**
  The connection log.  At the end of a run no log is wrong, or certain to become wrong, in
  exactly the runs without a hazard: a missing log entry, or a check that the monitor
  thread's harvest overtakes.  Between rounds nothing is certain but not yet logged, so there
  the log alternates and agrees with the server's record in exactly those runs.
 */
module Alternation {
  import opened Protocol
  import opened Sequences
  import opened Tokens

  /** The entries of one identity, oldest first. */
  function LogOf(log: seq<Entry>, id: Id): seq<Kind> {
    if log == [] then []
    else
      var last := log[|log|-1];
      LogOf(log[..|log|-1], id) + (if last.id == id then [last.kind] else [])
  }

  /** Connection, Disconnection, Connection, ... */
  ghost predicate Alternates(kinds: seq<Kind>) {
    forall i :: 0 <= i < |kinds| ==> (kinds[i] == Connection <==> i % 2 == 0)
  }

  predicate LastIsConnection(kinds: seq<Kind>) {
    |kinds| > 0 && kinds[|kinds|-1] == Connection
  }

  /** Snapshot members whose fate the running round has not logged yet. */
  function Pending(s: State): seq<Id> {
    match s.monitor
    case Idle => []
    case Reporting(next) => if next <= |s.previous| then s.previous[next..] else []
    case _ => s.previous
  }

  /** The server counts the identity as connected. */
  predicate OnRecord(s: State, id: Id) {
    id in s.connected || id in Pending(s) || s.receiver == Checked(id)
  }

  /** Snapshot members the harvest did not see: their Disconnection entry is certain. */
  predicate Condemned(s: State, id: Id) {
    match s.monitor
    case Harvested(seen) => id in s.previous && id !in seen
    case Reporting(_) => id in Pending(s)
    case _ => false
  }

  /** A registered identity that is about to be logged as disconnected. */
  predicate Doomed(s: State, id: Id) {
    Condemned(s, id) && (id in s.connected || s.receiver == Checked(id))
  }

  /** The log of the identity alternates and agrees with the record. */
  ghost predicate Agrees(s: State, id: Id) {
    var kinds := LogOf(s.log, id);
    Alternates(kinds) && (LastIsConnection(kinds) <==> OnRecord(s, id))
  }

  /** It agrees, and no wrong entry is certain to come. */
  ghost predicate ConsistentFor(s: State, id: Id) {
    Agrees(s, id) && !Doomed(s, id)
  }

  ghost predicate Consistent(s: State) {
    forall id :: ConsistentFor(s, id)
  }

  predicate AfterHarvest(m: Monitor) {
    m.Harvested? || m.Reporting?
  }

  /**
    The three ways the threads can miss each other:
    the database is down when a new identity is checked; an identity is checked against a
    snapshot that is already harvested; the harvest runs between the check and the push.
   */
  predicate Hazard(s: State, a: Action) {
    Enabled(s, a) &&
    match a
    case Rx(Check(id, online)) => if id in s.previous then AfterHarvest(s.monitor) else !online
    case Mon(Harvest) => s.receiver.Checked? && s.receiver.id in s.previous
    case _ => false
  }

  /** No step of the run is a hazard. */
  ghost predicate HazardFree(run: seq<Action>) {
    run != [] ==>
      var before, last := run[..|run|-1], run[|run|-1];
      HazardFree(before) && !Hazard(Exec(Init, before), last)
  }

  // ---------------------------------------------------------------- log lemmas

  lemma LogOfSnoc(log: seq<Entry>, e: Entry, id: Id)
    ensures LogOf(log + [e], id) == if e.id == id then LogOf(log, id) + [e.kind] else LogOf(log, id)
  {
    assert (log + [e])[..|log|] == log;
  }

  lemma AlternatesParity(kinds: seq<Kind>)
    requires Alternates(kinds)
    ensures LastIsConnection(kinds) <==> |kinds| % 2 == 1
  {
    if |kinds| > 0 {
      assert kinds[|kinds|-1] == Connection <==> (|kinds|-1) % 2 == 0;
    }
  }

  lemma AlternatesSnoc(kinds: seq<Kind>, k: Kind)
    ensures Alternates(kinds + [k]) <==> Alternates(kinds) && (k == Connection <==> !LastIsConnection(kinds))
  {
    var more := kinds + [k];
    if Alternates(more) {
      forall i | 0 <= i < |kinds| ensures kinds[i] == Connection <==> i % 2 == 0 {
        assert more[i] == kinds[i];
      }
    }
    if Alternates(kinds) {
      AlternatesParity(kinds);
      assert more[|kinds|] == k;
    }
  }

  // ---------------------------------------------------------------- shape of reachable states

  ghost predicate Shape(s: State) {
    && TokenInv(s)
    && Distinct(s.previous)
    && (s.monitor.Harvested? ==> forall id :: id in s.monitor.seen ==> id in s.connected)
    && (s.monitor.Reporting? ==> s.monitor.next <= |s.previous|)
    && (s.monitor == Leaving(true) && s.previous != [] ==> |s.connected| >= Threshold(|s.previous|))
  }

  /** The members kept stay in order. */
  lemma {:induction false} WithoutKeepsOrder(s: seq<Id>, drop: set<Id>, a: Id, b: Id)
    ensures Before(Without(s, drop), a, b) <==> Before(s, a, b) && a !in drop && b !in drop
  {
    if s != [] {
      var rest, last := s[..|s|-1], s[|s|-1];
      assert s == rest + [last];
      WithoutKeepsOrder(rest, drop, a, b);
      WithoutMembers(rest, drop);
      BeforeConcat(rest, [last], a, b);
      BeforeSingle(last, a, b);
      var kept := Without(rest, drop);
      if last in drop {
        assert Without(s, drop) == kept;
      } else {
        assert Without(s, drop) == kept + [last];
        BeforeConcat(kept, [last], a, b);
      }
    }
  }

  lemma {:induction false} WithoutMembers(s: seq<Id>, drop: set<Id>)
    ensures forall x :: x in Without(s, drop) <==> x in s && x !in drop
    ensures Distinct(s) ==> Distinct(Without(s, drop))
  {
    if s == [] {
    } else {
      WithoutMembers(s[..|s|-1], drop);
      assert s == s[..|s|-1] + [s[|s|-1]];
      var rest := Without(s[..|s|-1], drop);
      assert forall x :: x in s <==> x in s[..|s|-1] || x == s[|s|-1];
      if Distinct(s) {
        assert s[|s|-1] !in s[..|s|-1];
      }
    }
  }

  lemma ShapeMonitorStep(s: State, m: MonitorAction)
    requires Shape(s) && MonitorEnabled(s, m) && TokenInv(MonitorEffect(s, m))
    ensures Shape(MonitorEffect(s, m))
  {
    if m.StartRound? {
      forall id ensures multiset(s.connected)[id] <= 1 {
        assert OneToken(s, id);
      }
      CountsToDistinct(s.connected);
    } else if m.Erase? {
      WithoutMembers(s.previous, s.monitor.seen);
    }
  }

  lemma ShapeStep(s: State, a: Action)
    requires Shape(s)
    ensures Shape(Step(s, a))
  {
    TokenInvStep(s, a);
    if Enabled(s, a) {
      match a
      case Outside(o) => OutsideFrame(s, o);
      case Rx(_) =>
      case Mon(m) => ShapeMonitorStep(s, m);
    }
  }

  lemma {:induction false} ShapeRun(run: seq<Action>)
    ensures Shape(Exec(Init, run))
  {
    if run == [] {
    } else {
      ShapeRun(run[..|run|-1]);
      ShapeStep(Exec(Init, run[..|run|-1]), run[|run|-1]);
    }
  }

  /** The identity in the receive thread's hands is in neither list of live clients. */
  lemma InHandsNotConnected(s: State, id: Id)
    requires Shape(s)
    requires s.receiver == Received(id) || s.receiver == Checked(id)
    ensures id !in s.connected
  {
    assert OneToken(s, id);
    assert multiset(s.connected)[id] == 0;
  }

  // ---------------------------------------------------------------- no hazard keeps consistency

  /** Steps that write no log entry keep what consistency looks at, unless they are hazards. */
  lemma QuietMonitorStep(s: State, m: MonitorAction, id: Id)
    requires Shape(s) && MonitorEnabled(s, m) && !m.Report?
    ensures OnRecord(MonitorEffect(s, m), id) == OnRecord(s, id)
    ensures Doomed(s, id) ==> Doomed(MonitorEffect(s, m), id)
    ensures !Hazard(s, Mon(m)) ==> Doomed(MonitorEffect(s, m), id) == Doomed(s, id)
  {
    if m.Erase? {
      WithoutMembers(s.previous, s.monitor.seen);
    }
  }

  lemma QuietReceiverStep(s: State, r: ReceiverAction, id: Id)
    requires ReceiverEnabled(s, r) && !r.Check?
    ensures OnRecord(ReceiverEffect(s, r), id) == OnRecord(s, id)
    ensures Doomed(ReceiverEffect(s, r), id) == Doomed(s, id)
  {
    if r.Register? {
      assert id in s.connected + [r.id] <==> id in s.connected || id == r.id;
    }
  }

  lemma {:induction false} QuietStep(s: State, a: Action, id: Id)
    requires Shape(s) && Enabled(s, a) && !(a.Rx? && a.r.Check?) && !(a.Mon? && a.m.Report?)
    ensures Effect(s, a).log == s.log
    ensures OnRecord(Effect(s, a), id) == OnRecord(s, id)
    ensures Doomed(s, id) ==> Doomed(Effect(s, a), id)
    ensures !Hazard(s, a) ==> Doomed(Effect(s, a), id) == Doomed(s, id)
  {
    match a
    case Outside(o) => OutsideFrame(s, o);
    case Rx(r) => QuietReceiverStep(s, r, id);
    case Mon(m) => QuietMonitorStep(s, m, id);
  }

  lemma ReportLogged(s: State, x: Id, id: Id)
    requires MonitorEnabled(s, Report(x))
    ensures LogOf(MonitorEffect(s, Report(x)).log, id)
         == if id == x then LogOf(s.log, id) + [Disconnection] else LogOf(s.log, id)
  {
    LogOfSnoc(s.log, Entry(x, Disconnection), id);
  }

  lemma ReportPending(s: State, x: Id, id: Id)
    requires Shape(s) && MonitorEnabled(s, Report(x))
    ensures var t := MonitorEffect(s, Report(x));
      (id in Pending(s) <==> id == x || id in Pending(t)) && x !in Pending(t)
  {
    var k := s.monitor.next;
    assert s.previous[k..] == [x] + s.previous[k+1..];
  }

  lemma {:induction false} ReportStep(s: State, x: Id, id: Id)
    requires Shape(s) && MonitorEnabled(s, Report(x))
    ensures var t := MonitorEffect(s, Report(x));
      && LogOf(t.log, id) == (if id == x then LogOf(s.log, id) + [Disconnection] else LogOf(s.log, id))
      && (id in Pending(s) <==> id == x || id in Pending(t))
      && x !in Pending(t)
  {
    ReportLogged(s, x, id);
    ReportPending(s, x, id);
  }

  lemma CheckStep(s: State, x: Id, online: bool, id: Id)
    requires Shape(s) && ReceiverEnabled(s, Check(x, online))
    ensures var t := ReceiverEffect(s, Check(x, online));
      && LogOf(t.log, id) == (if id == x && online && x !in s.previous
                              then LogOf(s.log, id) + [Connection] else LogOf(s.log, id))
      && (OnRecord(t, id) <==> id == x || OnRecord(s, id))
      && (id != x ==> Doomed(t, id) == Doomed(s, id))
      && (x !in s.previous ==> !OnRecord(s, x) && !Doomed(t, x))
  {
    InHandsNotConnected(s, x);
    LogOfSnoc(s.log, Entry(x, Connection), id);
  }

  lemma {:induction false} ConsistentCheck(s: State, x: Id, online: bool, id: Id)
    requires Shape(s) && ConsistentFor(s, id)
    requires ReceiverEnabled(s, Check(x, online)) && !Hazard(s, Rx(Check(x, online)))
    ensures ConsistentFor(ReceiverEffect(s, Check(x, online)), id)
  {
    CheckStep(s, x, online, id);
    AlternatesSnoc(LogOf(s.log, id), Connection);
    if id == x && x in s.previous {
      assert Pending(s) == s.previous;
    }
  }

  lemma {:induction false} ConsistentReport(s: State, x: Id, id: Id)
    requires Shape(s) && ConsistentFor(s, id) && MonitorEnabled(s, Report(x))
    ensures ConsistentFor(MonitorEffect(s, Report(x)), id)
  {
    ReportStep(s, x, id);
    AlternatesSnoc(LogOf(s.log, id), Disconnection);
  }

  lemma {:induction false} ConsistentStep(s: State, a: Action, id: Id)
    requires Shape(s) && ConsistentFor(s, id) && !Hazard(s, a)
    ensures ConsistentFor(Step(s, a), id)
  {
    if Enabled(s, a) {
      if a.Rx? && a.r.Check? {
        ConsistentCheck(s, a.r.id, a.r.online, id);
      } else if a.Mon? && a.m.Report? {
        ConsistentReport(s, a.m.id, id);
      } else {
        QuietStep(s, a, id);
      }
    }
  }

  // ---------------------------------------------------------------- a hazard is never repaired

  /** The damage of a hazard: a wrong log, a missing Connection, or a certain wrong Disconnection. */
  ghost predicate Broken(s: State, id: Id) {
    var kinds := LogOf(s.log, id);
    !Alternates(kinds) || (OnRecord(s, id) && !LastIsConnection(kinds)) || Doomed(s, id)
  }

  lemma BrokenCheck(s: State, x: Id, online: bool, id: Id)
    requires Shape(s) && Broken(s, id) && ReceiverEnabled(s, Check(x, online))
    ensures Broken(ReceiverEffect(s, Check(x, online)), id)
  {
    CheckStep(s, x, online, id);
    AlternatesSnoc(LogOf(s.log, id), Connection);
    InHandsNotConnected(s, x);
  }

  lemma BrokenReport(s: State, x: Id, id: Id)
    requires Shape(s) && Broken(s, id) && MonitorEnabled(s, Report(x))
    ensures Broken(MonitorEffect(s, Report(x)), id)
  {
    ReportStep(s, x, id);
    AlternatesSnoc(LogOf(s.log, id), Disconnection);
  }

  lemma BrokenStays(s: State, a: Action, id: Id)
    requires Shape(s) && Broken(s, id)
    ensures Broken(Step(s, a), id)
  {
    if Enabled(s, a) {
      if a.Rx? && a.r.Check? {
        BrokenCheck(s, a.r.id, a.r.online, id);
      } else if a.Mon? && a.m.Report? {
        BrokenReport(s, a.m.id, id);
      } else {
        QuietStep(s, a, id);
      }
    }
  }

  lemma HazardBreaks(s: State, a: Action)
    requires Shape(s) && Consistent(s) && Hazard(s, a)
    ensures exists id :: Broken(Step(s, a), id)
  {
    match a
    case Rx(Check(x, online)) =>
      assert ConsistentFor(s, x);
      CheckStep(s, x, online, x);
      InHandsNotConnected(s, x);
      assert Broken(Step(s, a), x);
    case Mon(Harvest) =>
      var x := s.receiver.id;
      InHandsNotConnected(s, x);
      assert Doomed(Step(s, a), x);
      assert Broken(Step(s, a), x);
    case _ =>
  }

  // ---------------------------------------------------------------- whole runs

  /**
    In every run, at the end log and record agree and no registered identity is about to be
    logged as disconnected iff no step was a hazard.
   */
  lemma {:induction false} ConsistentIffHazardFree(run: seq<Action>)
    ensures Consistent(Exec(Init, run)) <==> HazardFree(run)
    ensures !HazardFree(run) ==> exists id :: Broken(Exec(Init, run), id)
  {
    if run == [] {
      assert Consistent(Init);
    } else {
      var n := |run| - 1;
      var s, a := Exec(Init, run[..n]), run[n];
      ConsistentIffHazardFree(run[..n]);
      ShapeRun(run[..n]);
      if !HazardFree(run[..n]) {
        var id :| Broken(s, id);
        BrokenStays(s, a, id);
      } else if Hazard(s, a) {
        HazardBreaks(s, a);
      } else {
        forall id ensures ConsistentFor(Step(s, a), id) {
          ConsistentStep(s, a, id);
        }
      }
      if id :| Broken(Exec(Init, run), id) {
        assert !ConsistentFor(Exec(Init, run), id);
      }
    }
  }

  /** The schedule discipline: message handling never overlaps harvest-to-clear, and the database answers. */
  ghost predicate HandlingIsAtomic(run: seq<Action>) {
    run != [] ==>
      var before, last := run[..|run|-1], run[|run|-1];
      var s := Exec(Init, before);
      && HandlingIsAtomic(before)
      && (last.Rx? && last.r.Check? ==> last.r.online && !AfterHarvest(s.monitor))
      && (last == Mon(Harvest) ==> !s.receiver.Checked?)
  }

  lemma {:induction false} AtomicIsHazardFree(run: seq<Action>)
    requires HandlingIsAtomic(run)
    ensures HazardFree(run)
  {
    if run != [] {
      AtomicIsHazardFree(run[..|run|-1]);
    }
  }

  /**
    With the database reachable and harvest-to-clear atomic with respect to message handling,
    every log alternates and ends in Connection exactly for the identities on record.
   */
  lemma AtomicHandlingAlternates(run: seq<Action>)
    requires HandlingIsAtomic(run)
    ensures Consistent(Exec(Init, run))
  {
    AtomicIsHazardFree(run);
    ConsistentIffHazardFree(run);
  }

  /** Between rounds no log entry is pending: log and record agree iff no step was a hazard. */
  lemma {:induction false} AgreementIffHazardFree(run: seq<Action>)
    requires Exec(Init, run).monitor.Idle?
    ensures (forall id :: Agrees(Exec(Init, run), id)) <==> HazardFree(run)
  {
    var s := Exec(Init, run);
    ConsistentIffHazardFree(run);
    if forall id :: Agrees(s, id) {
      forall id ensures ConsistentFor(s, id) {
        assert Agrees(s, id);
      }
    }
    if HazardFree(run) {
      forall id ensures Agrees(s, id) {
        assert ConsistentFor(s, id);
      }
    }
  }

  /** The log of the identity alternates and ends in Connection iff it is in the connected list. */
  ghost predicate ListAgrees(s: State, id: Id) {
    Alternates(LogOf(s.log, id)) && (LastIsConnection(LogOf(s.log, id)) <==> id in s.connected)
  }

  /** Between rounds and messages the record is just the connected list. */
  lemma {:induction false} QuietRecord(run: seq<Action>)
    requires Exec(Init, run).monitor.Idle? && !Exec(Init, run).receiver.Checked?
    ensures (forall id :: ListAgrees(Exec(Init, run), id)) <==> HazardFree(run)
  {
    var s := Exec(Init, run);
    AgreementIffHazardFree(run);
    forall id ensures Agrees(s, id) <==> ListAgrees(s, id) {
    }
    if forall id :: ListAgrees(s, id) {
      forall id ensures Agrees(s, id) {
        assert ListAgrees(s, id);
      }
    }
  }
}
