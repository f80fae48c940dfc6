/** `orderModifiers`: the dependency order, sorted by phase. */
module PopperPhases {
  import opened Sequences
  import opened PopperOrder

  const PHASES: seq<string> := [
    "beforeRead", "read", "afterRead", "beforeMain", "main", "afterMain", "beforeWrite", "write", "afterWrite"]

  function InPhase(ms: seq<Modifier>, phase: string): seq<Modifier> {
    if ms == [] then []
    else
      var rest, last := ms[..|ms|-1], ms[|ms|-1];
      InPhase(rest, phase) + (if last.phase == Some(phase) then [last] else [])
  }

  /** `phases.reduce((acc, phase) => acc.concat(ms.filter(...)), [])`. */
  function ByPhase(phases: seq<string>, ms: seq<Modifier>): seq<Modifier> {
    if phases == [] then []
    else ByPhase(phases[..|phases|-1], ms) + InPhase(ms, phases[|phases|-1])
  }

  function OrderModifiers(ms: seq<Modifier>): seq<Modifier> {
    ByPhase(PHASES, Order(ms))
  }

  /** The position of a phase; an unknown phase has none. */
  function Rank(phases: seq<string>, phase: Option<string>): Option<nat> {
    if phase.None? || phases == [] then None
    else if phase.value == phases[|phases|-1] then Some(|phases| - 1)
    else Rank(phases[..|phases|-1], phase)
  }

  lemma {:induction false} InPhaseMembers(ms: seq<Modifier>, phase: string)
    ensures forall m :: m in InPhase(ms, phase) <==> m in ms && m.phase == Some(phase)
  {
    if ms != [] {
      InPhaseMembers(ms[..|ms|-1], phase);
      assert ms == ms[..|ms|-1] + [ms[|ms|-1]];
    }
  }

  lemma {:induction false} InPhaseBefore(ms: seq<Modifier>, phase: string, a: Modifier, b: Modifier)
    ensures Before(InPhase(ms, phase), a, b) <==> Before(ms, a, b) && a.phase == Some(phase) == b.phase
  {
    if ms != [] {
      var rest, last := ms[..|ms|-1], ms[|ms|-1];
      InPhaseBefore(rest, phase, a, b);
      InPhaseMembers(rest, phase);
      assert ms == rest + [last];
      BeforeConcat(rest, [last], a, b);
      BeforeConcat(InPhase(rest, phase), [last], a, b);
      BeforeConcat(InPhase(rest, phase), [], a, b);
      BeforeSingle(last, a, b);
    }
  }

  lemma {:induction false} RankMember(phases: seq<string>, phase: Option<string>)
    ensures Rank(phases, phase).Some? <==> phase.Some? && phase.value in phases
    ensures var r := Rank(phases, phase); r.Some? ==> r.value < |phases| && phases[r.value] == phase.value
  {
    if phase.Some? && phases != [] {
      assert phases == phases[..|phases|-1] + [phases[|phases|-1]];
      if phase.value != phases[|phases|-1] {
        RankMember(phases[..|phases|-1], phase);
      }
    }
  }

  lemma {:induction false} ByPhaseMembers(phases: seq<string>, ms: seq<Modifier>)
    ensures forall m :: m in ByPhase(phases, ms) <==> m in ms && Rank(phases, m.phase).Some?
  {
    if phases != [] {
      ByPhaseMembers(phases[..|phases|-1], ms);
      InPhaseMembers(ms, phases[|phases|-1]);
    }
  }

  ghost predicate PhaseBefore(phases: seq<string>, ms: seq<Modifier>, a: Modifier, b: Modifier) {
    var x, y := Rank(phases, a.phase), Rank(phases, b.phase);
    x.Some? && y.Some? && a in ms && b in ms
    && (x.value < y.value || (x == y && Before(ms, a, b)))
  }

  /**
    The sort is stable: one modifier precedes another iff its phase is earlier, or the phases
    are equal and it came first in the input.
   */
  lemma {:induction false} ByPhaseIsStable(phases: seq<string>, ms: seq<Modifier>, a: Modifier, b: Modifier)
    requires Distinct(phases)
    ensures Before(ByPhase(phases, ms), a, b) <==> PhaseBefore(phases, ms, a, b)
  {
    if phases != [] {
      var rest, last := phases[..|phases|-1], phases[|phases|-1];
      ByPhaseIsStable(rest, ms, a, b);
      BeforeConcat(ByPhase(rest, ms), InPhase(ms, last), a, b);
      ByPhaseMembers(rest, ms);
      InPhaseMembers(ms, last);
      InPhaseBefore(ms, last, a, b);
      RankMember(rest, a.phase);
      RankMember(rest, b.phase);
      assert last !in rest;
    }
  }

  lemma PhasesDistinct()
    ensures Distinct(PHASES)
  {
  }

  lemma {:induction false} RankAt(phases: seq<string>, i: nat)
    requires Distinct(phases) && i < |phases|
    ensures Rank(phases, Some(phases[i])) == Some(i)
  {
    if i < |phases| - 1 {
      RankAt(phases[..|phases|-1], i);
    }
  }

  /** Reading, then the main work, then writing, each with a phase before and one after it. */
  lemma {:induction false} PhasesInOrder()
    ensures Rank(PHASES, Some("beforeRead")) == Some(0) && Rank(PHASES, Some("read")) == Some(1)
    ensures Rank(PHASES, Some("afterRead")) == Some(2) && Rank(PHASES, Some("beforeMain")) == Some(3)
    ensures Rank(PHASES, Some("main")) == Some(4) && Rank(PHASES, Some("afterMain")) == Some(5)
    ensures Rank(PHASES, Some("beforeWrite")) == Some(6) && Rank(PHASES, Some("write")) == Some(7)
    ensures Rank(PHASES, Some("afterWrite")) == Some(8)
  {
    PhasesDistinct();
    forall i: nat | i < 9 ensures Rank(PHASES, Some(PHASES[i])) == Some(i) {
      RankAt(PHASES, i);
    }
  }

  lemma NotBeforeItself(ms: seq<Modifier>, m: Modifier)
    requires UniqueNames(ms)
    ensures !Before(ms, m, m)
  {
  }

  /**
    `orderModifiers` on uniquely named modifiers: unique names again, no modifier of one of the
    nine phases is lost and no other is kept, and the result is the stable sort by phase of
    the dependency order.
   */
  lemma OrderModifiersSorts(ms: seq<Modifier>)
    requires UniqueNames(ms)
    ensures UniqueNames(OrderModifiers(ms))
    ensures forall m :: m in OrderModifiers(ms) <==> m in ms && m.phase.Some? && m.phase.value in PHASES
    ensures forall a, b :: Before(OrderModifiers(ms), a, b) <==> PhaseBefore(PHASES, Order(ms), a, b)
  {
    var r := OrderModifiers(ms);
    PhasesDistinct();
    OrderMembers(ms);
    ByPhaseMembers(PHASES, Order(ms));
    forall m: Modifier ensures Rank(PHASES, m.phase).Some? <==> m.phase.Some? && m.phase.value in PHASES {
      RankMember(PHASES, m.phase);
    }
    forall a, b ensures Before(r, a, b) <==> PhaseBefore(PHASES, Order(ms), a, b) {
      ByPhaseIsStable(PHASES, Order(ms), a, b);
    }
    UniqueByOrder(ms, r);
  }

  lemma UniqueByOrder(ms: seq<Modifier>, r: seq<Modifier>)
    requires UniqueNames(ms)
    requires forall m :: m in r ==> m in ms
    requires forall a, b :: Before(r, a, b) <==> PhaseBefore(PHASES, Order(ms), a, b)
    ensures UniqueNames(r)
  {
    OrderIsPermutation(ms);
    TableIsList(ms);
    forall i, j | 0 <= i < j < |r| ensures r[i].name != r[j].name {
      NotBeforeItself(Order(ms), r[i]);
      assert Before(r, r[i], r[j]);
      assert r[i] in ms && r[j] in ms;
      assert TableOf(ms)[r[i].name] == r[i] && TableOf(ms)[r[j].name] == r[j];
    }
  }

  /**
    A dependency that is not on a cycle with its dependent precedes it in the final order iff
    its phase is not the later one.
   */
  lemma DependencyKeptByPhase(ms: seq<Modifier>, m: Modifier, dep: Modifier)
    requires UniqueNames(ms) && m in ms && dep in ms && dep.name in Dependencies(m)
    requires !Reaches(TableOf(ms), dep.name, m.name)
    requires Rank(PHASES, m.phase).Some? && Rank(PHASES, dep.phase).Some?
    ensures Before(OrderModifiers(ms), dep, m) <==> Rank(PHASES, dep.phase).value <= Rank(PHASES, m.phase).value
  {
    DependenciesFirst(ms, m, dep);
    OrderMembers(ms);
    PhasesDistinct();
    ByPhaseIsStable(PHASES, Order(ms), dep, m);
  }
}
