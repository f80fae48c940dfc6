/**
  Popper's `order`: a depth-first topological sort of the modifiers that copes with missing
  dependencies and with cycles.
 */
module PopperOrder {
  import opened Sequences

  /** Function bodies and option values are opaque to the scheduler. */
  type Payload = string

  datatype Modifier = Modifier(
    name: string,
    phase: Option<string>,
    enabled: Option<bool>,
    fn: Option<Payload>,
    requires_: Option<seq<string>>,
    requiresIfExists: Option<seq<string>>,
    options: map<string, Payload>,
    data: map<string, Payload>
  )

  type Table = map<string, Modifier>

  function OrEmpty(names: Option<seq<string>>): seq<string> {
    if names.Some? then names.value else []
  }

  function Dependencies(m: Modifier): seq<string> {
    OrEmpty(m.requires_) + OrEmpty(m.requiresIfExists)
  }

  predicate Named(ms: seq<Modifier>, name: string) {
    exists m :: m in ms && m.name == name
  }

  ghost predicate UniqueNames(ms: seq<Modifier>) {
    forall i, j :: 0 <= i < j < |ms| ==> ms[i].name != ms[j].name
  }

  /** `map.set(modifier.name, modifier)` for each modifier: the last one of a name stays. */
  function TableOf(ms: seq<Modifier>): (t: Table)
    ensures forall n :: n in t <==> Named(ms, n)
    ensures forall n :: n in t ==> t[n] in ms && t[n].name == n
  {
    if ms == [] then map[]
    else
      var rest, last := ms[..|ms|-1], ms[|ms|-1];
      assert forall m :: m in ms <==> m in rest || m == last;
      TableOf(rest)[last.name := last]
  }

  ghost predicate WellKeyed(t: Table) {
    forall n :: n in t ==> t[n].name == n
  }

  // ---------------------------------------------------------------- the depth-first search

  /** The search's two accumulators. */
  datatype Search = Search(visited: set<string>, result: seq<Modifier>)

  /** `sort(modifier)`. */
  function Visit(t: Table, m: Modifier, d: Search): (d': Search)
    requires WellKeyed(t) && m.name in t && m.name !in d.visited
    ensures d.visited + {m.name} <= d'.visited
    decreases t.Keys - d.visited, 0, 0
  {
    var entered := Search(d.visited + {m.name}, d.result);
    assert t.Keys - entered.visited < t.Keys - d.visited by {
      assert m.name in t.Keys - d.visited && m.name !in t.Keys - entered.visited;
    }
    var closed := VisitAll(t, Dependencies(m), entered);
    Search(closed.visited, closed.result + [m])
  }

  /** `requires.forEach(...)`. */
  function VisitAll(t: Table, deps: seq<string>, d: Search): (d': Search)
    requires WellKeyed(t)
    ensures d.visited <= d'.visited
    decreases t.Keys - d.visited, 1, |deps|
  {
    if deps == [] then d
    else
      var next := VisitDependency(t, deps[0], d);
      assert t.Keys - next.visited == t.Keys - d.visited || t.Keys - next.visited < t.Keys - d.visited;
      VisitAll(t, deps[1..], next)
  }

  function VisitDependency(t: Table, dep: string, d: Search): (d': Search)
    requires WellKeyed(t)
    ensures d.visited <= d'.visited
    decreases t.Keys - d.visited, 0, 1
  {
    if dep !in d.visited && dep in t then Visit(t, t[dep], d) else d
  }

  /** The outer `modifiers.forEach(...)`. */
  function VisitRoots(t: Table, ms: seq<Modifier>, d: Search): Search
    requires WellKeyed(t) && forall m :: m in ms ==> m.name in t
    decreases |ms|
  {
    if ms == [] then d
    else VisitRoots(t, ms[1..], if ms[0].name !in d.visited then Visit(t, ms[0], d) else d)
  }

  function Order(ms: seq<Modifier>): seq<Modifier> {
    var t := TableOf(ms);
    assert forall m :: m in ms ==> Named(ms, m.name);
    VisitRoots(t, ms, Search({}, [])).result
  }

  // ---------------------------------------------------------------- reachability

  /** `x` names a modifier that depends on `y`, and `y` is present. */
  predicate Edge(t: Table, x: string, y: string) {
    x in t && y in t && y in Dependencies(t[x])
  }

  ghost predicate Path(t: Table, p: seq<string>, x: string, y: string) {
    && p != [] && p[0] == x && p[|p|-1] == y
    && forall i :: 0 <= i < |p| - 1 ==> Edge(t, p[i], p[i+1])
  }

  /** `x` is `y` or depends on it, directly or through others. */
  ghost predicate Reaches(t: Table, x: string, y: string) {
    exists p :: Path(t, p, x, y)
  }

  ghost predicate Acyclic(t: Table) {
    forall x, y :: Edge(t, x, y) ==> !Reaches(t, y, x)
  }

  lemma ReachesSelf(t: Table, x: string)
    ensures Reaches(t, x, x)
  {
    assert Path(t, [x], x, x);
  }

  lemma ReachesThrough(t: Table, x: string, y: string, z: string)
    requires Reaches(t, x, y) && Edge(t, y, z)
    ensures Reaches(t, x, z)
  {
    var p :| Path(t, p, x, y);
    assert Path(t, p + [z], x, z);
  }

  // ---------------------------------------------------------------- the search is sound

  function NameSet(ms: seq<Modifier>): set<string> {
    set m | m in ms :: m.name
  }

  /** Entered but not pushed: the recursion's stack. */
  function Open(d: Search): set<string> {
    d.visited - NameSet(d.result)
  }

  /** A present dependency of the i-th modifier comes earlier, or is on a cycle with it. */
  ghost predicate Served(t: Table, result: seq<Modifier>, i: nat)
    requires i < |result|
  {
    forall dep :: dep in Dependencies(result[i]) && dep in t ==>
      Named(result[..i], dep) || Reaches(t, dep, result[i].name)
  }

  ghost predicate SearchInv(t: Table, d: Search) {
    && WellKeyed(t)
    && NameSet(d.result) <= d.visited <= t.Keys
    && UniqueNames(d.result)
    && (forall m :: m in d.result ==> m.name in t && t[m.name] == m)
    && (forall i :: 0 <= i < |d.result| ==> Served(t, d.result, i))
  }

  ghost predicate StackReaches(t: Table, d: Search, name: string) {
    forall o :: o in Open(d) ==> Reaches(t, o, name)
  }

  lemma PushServed(t: Table, d: Search, m: Modifier)
    requires forall i :: 0 <= i < |d.result| ==> Served(t, d.result, i)
    requires StackReaches(t, d, m.name)
    requires forall dep :: dep in Dependencies(m) && dep in t ==> dep in d.visited
    ensures forall i :: 0 <= i < |d.result + [m]| ==> Served(t, d.result + [m], i)
  {
    var more := d.result + [m];
    forall i | 0 <= i < |more| ensures Served(t, more, i) {
      if i < |d.result| {
        assert Served(t, d.result, i);
        assert more[..i] == d.result[..i];
      } else {
        assert more[..i] == d.result;
        forall dep | dep in Dependencies(m) && dep in t
          ensures Named(d.result, dep) || Reaches(t, dep, m.name)
        {
          assert dep in NameSet(d.result) || dep in Open(d);
        }
      }
    }
  }

  /** Pushing a modifier whose dependencies are all visited. */
  lemma Push(t: Table, d: Search, m: Modifier)
    requires SearchInv(t, d) && m.name in t && t[m.name] == m
    requires m.name in Open(d) && StackReaches(t, d, m.name)
    requires forall dep :: dep in Dependencies(m) && dep in t ==> dep in d.visited
    ensures SearchInv(t, Search(d.visited, d.result + [m]))
    ensures Open(Search(d.visited, d.result + [m])) == Open(d) - {m.name}
  {
    var more := d.result + [m];
    assert NameSet(more) == NameSet(d.result) + {m.name};
    assert UniqueNames(more) by {
      assert forall k :: 0 <= k < |d.result| ==> d.result[k].name in NameSet(d.result);
    }
    PushServed(t, d, m);
  }

  lemma {:induction false} VisitSound(t: Table, m: Modifier, d: Search)
    requires SearchInv(t, d) && m.name in t && t[m.name] == m && m.name !in d.visited
    requires StackReaches(t, d, m.name)
    ensures var d' := Visit(t, m, d);
      SearchInv(t, d') && Open(d') == Open(d) && m.name in d'.visited
    decreases t.Keys - d.visited, 0, 0
  {
    var entered := Search(d.visited + {m.name}, d.result);
    assert t.Keys - entered.visited < t.Keys - d.visited by {
      assert m.name in t.Keys - d.visited && m.name !in t.Keys - entered.visited;
    }
    assert Open(entered) == Open(d) + {m.name};
    ReachesSelf(t, m.name);
    VisitAllSound(t, m, Dependencies(m), entered);
    var closed := VisitAll(t, Dependencies(m), entered);
    Push(t, closed, m);
    assert Open(d) + {m.name} - {m.name} == Open(d);
  }

  lemma {:induction false} VisitAllSound(t: Table, m: Modifier, deps: seq<string>, d: Search)
    requires SearchInv(t, d) && m.name in t && t[m.name] == m
    requires StackReaches(t, d, m.name)
    requires forall dep :: dep in deps ==> dep in Dependencies(m)
    ensures var d' := VisitAll(t, deps, d);
      && SearchInv(t, d') && Open(d') == Open(d)
      && forall dep :: dep in deps && dep in t ==> dep in d'.visited
    decreases t.Keys - d.visited, 1, |deps|
  {
    if deps != [] {
      var next := VisitDependency(t, deps[0], d);
      if deps[0] !in d.visited && deps[0] in t {
        forall o | o in Open(d) ensures Reaches(t, o, deps[0]) {
          assert Edge(t, m.name, deps[0]);
          ReachesThrough(t, o, m.name, deps[0]);
        }
        VisitSound(t, t[deps[0]], d);
      }
      assert t.Keys - next.visited == t.Keys - d.visited || t.Keys - next.visited < t.Keys - d.visited;
      VisitAllSound(t, m, deps[1..], next);
      assert forall dep :: dep in deps ==> dep == deps[0] || dep in deps[1..];
    }
  }

  lemma {:induction false} VisitRootsSound(t: Table, ms: seq<Modifier>, d: Search)
    requires SearchInv(t, d) && Open(d) == {}
    requires forall m :: m in ms ==> m.name in t && t[m.name] == m
    ensures var d' := VisitRoots(t, ms, d);
      && SearchInv(t, d') && Open(d') == {} && d.visited <= d'.visited
      && forall m :: m in ms ==> m.name in d'.visited
    decreases |ms|
  {
    if ms != [] {
      if ms[0].name !in d.visited {
        VisitSound(t, ms[0], d);
        VisitRootsSound(t, ms[1..], Visit(t, ms[0], d));
      } else {
        VisitRootsSound(t, ms[1..], d);
      }
      assert forall m :: m in ms ==> m == ms[0] || m in ms[1..];
    }
  }

  lemma TableIsList(ms: seq<Modifier>)
    requires UniqueNames(ms)
    ensures forall m :: m in ms ==> m.name in TableOf(ms) && TableOf(ms)[m.name] == m
  {
    forall m | m in ms ensures m.name in TableOf(ms) && TableOf(ms)[m.name] == m {
      assert Named(ms, m.name);
      var n := TableOf(ms)[m.name];
      assert n in ms && n.name == m.name;
      var i :| 0 <= i < |ms| && ms[i] == m;
      var j :| 0 <= j < |ms| && ms[j] == n;
    }
  }

  function FinalSearch(ms: seq<Modifier>): Search
    requires UniqueNames(ms)
  {
    TableIsList(ms);
    VisitRoots(TableOf(ms), ms, Search({}, []))
  }

  lemma NothingOpen(d: Search)
    requires Open(d) == {}
    ensures d.visited <= NameSet(d.result)
  {
    forall n | n in d.visited ensures n in NameSet(d.result) {
      assert n !in Open(d);
    }
  }

  lemma FinalSearchSound(ms: seq<Modifier>)
    requires UniqueNames(ms)
    ensures SearchInv(TableOf(ms), FinalSearch(ms)) && Order(ms) == FinalSearch(ms).result
    ensures forall m :: m in ms ==> m.name in NameSet(Order(ms))
  {
    TableIsList(ms);
    VisitRootsSound(TableOf(ms), ms, Search({}, []));
    NothingOpen(FinalSearch(ms));
  }

  lemma OrderMembers(ms: seq<Modifier>)
    requires UniqueNames(ms)
    ensures forall m :: m in Order(ms) <==> m in ms
  {
    FinalSearchSound(ms);
    TableIsList(ms);
    forall m | m in ms ensures m in Order(ms) {
      var n :| n in Order(ms) && n.name == m.name;
      assert TableOf(ms)[m.name] == n;
    }
  }

  /** On every dependency graph, cycles included, `order` returns each modifier exactly once. */
  lemma OrderIsPermutation(ms: seq<Modifier>)
    requires UniqueNames(ms)
    ensures UniqueNames(Order(ms))
    ensures multiset(Order(ms)) == multiset(ms)
  {
    FinalSearchSound(ms);
    OrderMembers(ms);
    SameMembers(Order(ms), ms);
  }

  lemma ServedIsBefore(t: Table, r: seq<Modifier>, i: nat, dep: Modifier)
    requires i < |r| && UniqueNames(r) && dep in r && Served(t, r, i)
    requires dep.name in Dependencies(r[i]) && dep.name in t && !Reaches(t, dep.name, r[i].name)
    ensures Before(r, dep, r[i])
  {
    assert Named(r[..i], dep.name);
    var e :| e in r[..i] && e.name == dep.name;
    var j :| 0 <= j < i && r[j] == e;
    var k :| 0 <= k < |r| && r[k] == dep;
    assert j == k;
  }

  /**
    A present dependency precedes its dependent unless the two are on a common cycle; so on an
    acyclic graph every present dependency does.
   */
  lemma DependenciesFirst(ms: seq<Modifier>, m: Modifier, dep: Modifier)
    requires UniqueNames(ms) && m in ms && dep in ms && dep.name in Dependencies(m)
    requires !Reaches(TableOf(ms), dep.name, m.name)
    ensures Before(Order(ms), dep, m)
  {
    FinalSearchSound(ms);
    OrderMembers(ms);
    var i :| 0 <= i < |Order(ms)| && Order(ms)[i] == m;
    assert Named(ms, dep.name);
    ServedIsBefore(TableOf(ms), Order(ms), i, dep);
  }

  lemma AcyclicDependenciesFirst(ms: seq<Modifier>, m: Modifier, dep: Modifier)
    requires UniqueNames(ms) && m in ms && dep in ms && dep.name in Dependencies(m)
    requires Acyclic(TableOf(ms))
    ensures Before(Order(ms), dep, m)
  {
    TableIsList(ms);
    assert Edge(TableOf(ms), m.name, dep.name);
    DependenciesFirst(ms, m, dep);
  }
}
