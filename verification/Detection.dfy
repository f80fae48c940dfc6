/** What the reports of a round are worth: no loss is missed, and when a report is no false alarm. */
module Detection {
  import opened Protocol
  import opened Sequences
  import opened Alternation
  import opened Rounds
  import opened Losses

  /** The state in which the round's last step is taken. */
  function AtEnd(s: State, run: seq<Action>): State {
    Exec(Begin(s), run)
  }

  /** No live client is reported. */
  ghost predicate NoFalseAlarm(s: State, run: seq<Action>) {
    forall x :: x in Reports(run) ==> Lost(AtEnd(s, run), x)
  }

  /** Only members of the snapshot have been seen at the harvest. */
  ghost predicate NoNewcomers(s: State, run: seq<Action>) {
    forall x :: x in SeenAtHarvest(run) ==> x in s.connected
  }

  /** The members of the snapshot that are lost, in order. */
  function LostMembers(s: State, run: seq<Action>): seq<Id> {
    Within(s.connected, set x | x in s.connected && Lost(AtEnd(s, run), x))
  }

  lemma LostLater(past: seq<Action>, more: seq<Action>, before: State, after: State, x: Id)
    requires before == Exec(Init, past) && after == Exec(before, more) && Lost(before, x)
    ensures Lost(after, x)
  {
    LostForGood(past, more, x);
  }

  lemma ExecSplit(s: State, run: seq<Action>, k: nat)
    requires k <= |run|
    ensures Exec(s, run) == Exec(Exec(s, run[..k]), run[k..])
  {
    ExecConcat(s, run[..k], run[k..]);
    assert run == run[..k] + run[k..];
  }

  lemma LostInRun(past: seq<Action>, s: State, run: seq<Action>, k: nat, before: State, after: State, x: Id)
    requires s == Exec(Init, past) && k <= |run| && before == Exec(s, run[..k]) && after == Exec(s, run)
    requires Lost(before, x)
    ensures Lost(after, x)
  {
    assert before == Exec(Init, past + run[..k]) by {
      ExecConcat(Init, past, run[..k]);
    }
    assert after == Exec(before, run[k..]) by {
      ExecSplit(s, run, k);
    }
    LostLater(past + run[..k], run[k..], before, after, x);
  }

  lemma LostAtEnd(past: seq<Action>, run: seq<Action>, k: nat, t: State, x: Id)
    requires k <= |run| && t == Exec(Begin(Exec(Init, past)), run[..k]) && Lost(t, x)
    ensures Lost(AtEnd(Exec(Init, past), run), x)
  {
    var begun := Begin(Exec(Init, past));
    ExecSnoc(Init, past, Mon(StartRound(true)));
    LostInRun(past + [Mon(StartRound(true))], begun, run, k, t, Exec(begun, run), x);
  }

  /**
    No loss is missed: in every reachable round, whatever is interleaved and however the wait
    ends, a snapshot member that is lost at any moment of the round, in the state `t` after its
    first k steps, is reported.
   */
  lemma {:induction false} EveryLossIsReported(past: seq<Action>, run: seq<Action>, k: nat, t: State, x: Id)
    requires CompleteRound(Exec(Init, past), run) && k <= |run|
    requires t == Exec(Begin(Exec(Init, past)), run[..k])
    requires x in Exec(Init, past).connected && Lost(t, x)
    ensures x in Reports(run)
  {
    var s := Exec(Init, past);
    LostAtEnd(past, run, k, t, x);
    assert x !in SeenAtHarvest(run) by {
      RoundInvHolds(s, run);
      assert AtEnd(s, run).connected == Registrations(run);
    }
    RoundEnds(s, run);
    WithoutMembers(s.connected, Elements(SeenAtHarvest(run)));
  }

  lemma AtMostOneReport(past: seq<Action>, run: seq<Action>, x: Id)
    requires CompleteRound(Exec(Init, past), run) && LeftByCount(run) && NoNewcomers(Exec(Init, past), run)
    requires x in Exec(Init, past).connected
    ensures |Reports(run)| <= 1
  {
    SingleFailure(past, run, x);
  }

  lemma OneMember(s: seq<Id>, x: Id)
    requires x in s && |s| <= 1
    ensures s == [x]
  {
  }

  /**
    If only snapshot members are seen and the wait ends by the count, a snapshot member that
    is lost at any moment of the round, in the state `t`, is reported, and nobody else is.
   */
  lemma {:induction false} LostClientIsReported(past: seq<Action>, s: State, run: seq<Action>, k: nat, t: State, x: Id)
    requires k <= |run| && s == Exec(Init, past)
    requires x in s.connected && Lost(t, x) && t == Exec(Begin(s), run[..k])
    requires CompleteRound(s, run) && LeftByCount(run) && NoNewcomers(s, run)
    ensures Reports(run) == [x]
  {
    EveryLossIsReported(past, run, k, t, x);
    AtMostOneReport(past, run, x);
    OneMember(Reports(run), x);
  }

  /** A client is reported iff it is a snapshot member that was not seen. */
  lemma ReportedIffUnseen(past: seq<Action>, run: seq<Action>, x: Id)
    requires CompleteRound(Exec(Init, past), run)
    ensures x in Reports(run) <==> x in Exec(Init, past).connected && x !in SeenAtHarvest(run)
  {
    var s := Exec(Init, past);
    RoundEnds(s, run);
    WithoutMembers(s.connected, Elements(SeenAtHarvest(run)));
  }

  lemma LostIsOnlyReport(past: seq<Action>, run: seq<Action>, x: Id)
    requires CompleteRound(Exec(Init, past), run) && LeftByCount(run) && NoNewcomers(Exec(Init, past), run)
    requires x in Exec(Init, past).connected && Lost(AtEnd(Exec(Init, past), run), x)
    ensures Reports(run) == [x]
  {
    assert run[..|run|] == run;
    LostClientIsReported(past, Exec(Init, past), run, |run|, AtEnd(Exec(Init, past), run), x);
  }

  lemma Alarms(reports: seq<Id>, connected: seq<Id>, seen: seq<Id>, end: State)
    requires forall x :: x in reports <==> x in connected && x !in seen
    requires forall x :: x in connected && Lost(end, x) ==> reports == [x]
    ensures (forall x :: x in reports ==> Lost(end, x))
      <==> (exists x :: x in connected && Lost(end, x)) || forall x :: x in connected ==> x in seen
  {
    if (forall x :: x in reports ==> Lost(end, x)) && reports != [] {
      assert reports[0] in connected && Lost(end, reports[0]);
    }
    if x :| x in connected && Lost(end, x) {
      assert reports == [x];
    }
  }

  /**
    When the one report of such a round is right: no live client is reported iff some snapshot
    member is lost, or every one of them was seen.
   */
  lemma {:induction false} NoFalseAlarmIff(past: seq<Action>, run: seq<Action>)
    requires CompleteRound(Exec(Init, past), run) && LeftByCount(run) && NoNewcomers(Exec(Init, past), run)
    ensures var s := Exec(Init, past);
      NoFalseAlarm(s, run) <==>
        || (exists x :: x in s.connected && Lost(AtEnd(s, run), x))
        || (forall x :: x in s.connected ==> x in SeenAtHarvest(run))
  {
    var s := Exec(Init, past);
    forall x ensures x in Reports(run) <==> x in s.connected && x !in SeenAtHarvest(run) {
      ReportedIffUnseen(past, run, x);
    }
    forall x | x in s.connected && Lost(AtEnd(s, run), x) ensures Reports(run) == [x] {
      LostIsOnlyReport(past, run, x);
    }
    Alarms(Reports(run), s.connected, SeenAtHarvest(run), AtEnd(s, run));
  }

  lemma ReportsAreDistinct(past: seq<Action>, run: seq<Action>)
    requires CompleteRound(Exec(Init, past), run)
    ensures Distinct(Exec(Init, past).connected) && Distinct(Reports(run))
  {
    var s := Exec(Init, past);
    SeenDistinct(past, run);
    RoundEnds(s, run);
    WithoutMembers(s.connected, Elements(SeenAtHarvest(run)));
  }

  /** Two duplicate-free lists, one inside the other, have the same members iff they are equally long. */
  lemma SameSize(part: seq<Id>, whole: seq<Id>)
    requires Distinct(part) && Distinct(whole) && forall x :: x in part ==> x in whole
    ensures |part| <= |whole|
    ensures |part| == |whole| <==> forall x :: x in whole ==> x in part
  {
    ElementCount(part);
    ElementCount(whole);
    SubsetSize(Elements(part), Elements(whole));
    if |part| == |whole| {
      forall x | x in whole ensures x in part {
        assert x in Elements(whole);
      }
    }
    if forall x :: x in whole ==> x in part {
      assert Elements(part) == Elements(whole);
    }
  }

  lemma SubsetSize<T>(a: set<T>, b: set<T>)
    requires a <= b
    ensures |a| <= |b| && (|a| == |b| ==> a == b)
  {
    assert b == a + (b - a);
    assert |b| == |a| + |b - a|;
  }

  lemma LostMembersAre(past: seq<Action>, run: seq<Action>)
    requires CompleteRound(Exec(Init, past), run)
    ensures var s := Exec(Init, past);
      && Distinct(LostMembers(s, run))
      && forall x :: x in LostMembers(s, run) <==> x in s.connected && Lost(AtEnd(s, run), x)
  {
    var s := Exec(Init, past);
    ReportsAreDistinct(past, run);
    WithinMembers(s.connected, set x | x in s.connected && Lost(AtEnd(s, run), x));
  }

  /**
    Every reachable round, newcomers and timeouts included: there are at least as many reports as lost
    members, and no live client is reported iff there are exactly as many, which is to say that
    the arrivals are the snapshot's size plus the newcomers less the lost ones.
   */
  lemma {:induction false} FalseAlarmsByCount(past: seq<Action>, run: seq<Action>)
    requires CompleteRound(Exec(Init, past), run)
    ensures var s := Exec(Init, past);
      && |LostMembers(s, run)| <= |Reports(run)|
      && (NoFalseAlarm(s, run) <==>
          |SeenAtHarvest(run)| == |s.connected| + |Newcomers(s, run)| - |LostMembers(s, run)|)
  {
    var s := Exec(Init, past);
    var lost, reports := LostMembers(s, run), Reports(run);
    LostMembersAre(past, run);
    forall x ensures x in reports ==> x in s.connected {
      ReportedIffUnseen(past, run, x);
    }
    forall x | x in lost ensures x in reports {
      assert run[..|run|] == run;
      EveryLossIsReported(past, run, |run|, AtEnd(s, run), x);
    }
    ReportsAreDistinct(past, run);
    SameSize(lost, reports);
    ReportCount(past, run);
  }
}
