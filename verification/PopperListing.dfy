/**
  The order of modifiers that do not depend on each other: the order in which they are listed, or in which a
  modifier lists its dependencies, decides, except that a modifier comes along with the first one that reaches it.
 */
module PopperListing {
  import opened Sequences
  import opened PopperOrder
  import opened PopperPhases

  // ---------------------------------------------------------------- what a search adds

  /** A chain of dependencies from `x` to `y` that avoids the names in `v`. */
  ghost predicate ReachesAvoiding(t: Table, v: set<string>, x: string, y: string) {
    exists p :: Path(t, p, x, y) && forall n :: n in p ==> n !in v
  }

  /** `y` is reached from one of the first `k` names. */
  ghost predicate ReachedFrom(t: Table, v: set<string>, names: seq<string>, k: nat, y: string)
    requires k <= |names|
  {
    exists s :: 0 <= s < k && names[s] in t && ReachesAvoiding(t, v, names[s], y)
  }

  ghost predicate ClosedUnder(t: Table, v: set<string>, added: set<string>) {
    forall n, dep :: n in added && n in t && dep in t && dep in Dependencies(t[n]) ==> dep in v
  }

  /** The search has gone on from `d` to `e`, and nothing is left open that was not open before. */
  ghost predicate Extends(t: Table, d: Search, e: Search) {
    && d.visited <= e.visited && d.result <= e.result
    && NameSet(e.result[|d.result|..]) == e.visited - d.visited
    && (forall m :: m in e.result[|d.result|..] ==> m.name in t && t[m.name] == m)
    && ClosedUnder(t, e.visited, e.visited - d.visited)
  }

  lemma NameSetConcat(a: seq<Modifier>, b: seq<Modifier>)
    ensures NameSet(a + b) == NameSet(a) + NameSet(b)
  {
  }

  lemma ExtendsTrans(t: Table, d: Search, e: Search, f: Search)
    requires Extends(t, d, e) && Extends(t, e, f)
    ensures Extends(t, d, f)
  {
    var a, b := e.result[|d.result|..], f.result[|e.result|..];
    assert f.result[|d.result|..] == a + b;
    NameSetConcat(a, b);
  }

  lemma AvoidsMore(t: Table, v: set<string>, w: set<string>, x: string, y: string)
    requires ReachesAvoiding(t, w, x, y) && v <= w
    ensures ReachesAvoiding(t, v, x, y)
  {
    var p :| Path(t, p, x, y) && forall n :: n in p ==> n !in w;
    assert forall n :: n in p ==> n !in v;
  }

  lemma ReachesAvoidingSelf(t: Table, v: set<string>, x: string)
    requires x !in v
    ensures ReachesAvoiding(t, v, x, x)
  {
    assert Path(t, [x], x, x);
  }

  lemma ReachesAvoidingBy(t: Table, v: set<string>, x: string, y: string, z: string)
    requires Edge(t, x, y) && ReachesAvoiding(t, v, y, z) && x !in v
    ensures ReachesAvoiding(t, v, x, z)
  {
    var p :| Path(t, p, y, z) && forall n :: n in p ==> n !in v;
    var q := [x] + p;
    assert Path(t, q, x, z) by {
      forall i | 0 <= i < |q| - 1 ensures Edge(t, q[i], q[i + 1]) {
        if i > 0 {
          assert Edge(t, p[i - 1], p[i]);
        }
      }
    }
  }

  lemma PathTail(t: Table, p: seq<string>, x: string, y: string)
    requires Path(t, p, x, y) && |p| > 1
    ensures Edge(t, x, p[1]) && Path(t, p[1..], p[1], y)
  {
    assert Edge(t, p[0], p[1]);
    var rest := p[1..];
    forall l | 0 <= l < |rest| - 1 ensures Edge(t, rest[l], rest[l + 1]) {
      assert Edge(t, p[l + 1], p[l + 2]);
    }
  }

  /** From a name inside, a chain that avoids what was there before stays inside. */
  lemma {:induction false} StaysInside(t: Table, d: Search, e: Search, p: seq<string>, x: string, y: string)
    requires Extends(t, d, e) && Path(t, p, x, y) && x in e.visited
    requires forall n :: n in p ==> n !in d.visited
    ensures y in e.visited
    decreases |p|
  {
    if |p| > 1 {
      PathTail(t, p, x, y);
      assert x in p;
      StaysInside(t, d, e, p[1..], p[1], y);
    }
  }

  /** A visit enters what its modifier reaches around the names visited before, and nothing else. */
  lemma {:induction false} VisitExtends(t: Table, m: Modifier, d: Search)
    requires WellKeyed(t) && m.name in t && t[m.name] == m && m.name !in d.visited
    ensures Extends(t, d, Visit(t, m, d))
    ensures forall y :: y in Visit(t, m, d).visited - d.visited ==> ReachesAvoiding(t, d.visited, m.name, y)
    decreases t.Keys - d.visited, 0, 0
  {
    var entered := Search(d.visited + {m.name}, d.result);
    assert t.Keys - entered.visited < t.Keys - d.visited by {
      assert m.name in t.Keys - d.visited && m.name !in t.Keys - entered.visited;
    }
    var deps := Dependencies(m);
    AllExtends(t, deps, entered);
    var closed := VisitAll(t, deps, entered);
    PushExtends(t, m, d, closed);
    forall y | y in closed.visited - d.visited ensures ReachesAvoiding(t, d.visited, m.name, y) {
      if y == m.name {
        ReachesAvoidingSelf(t, d.visited, y);
      } else {
        assert y in closed.visited - entered.visited;
        assert ReachedFrom(t, entered.visited, deps, |deps|, y);
        var s :| 0 <= s < |deps| && deps[s] in t && ReachesAvoiding(t, entered.visited, deps[s], y);
        AvoidsMore(t, d.visited, entered.visited, deps[s], y);
        assert Edge(t, m.name, deps[s]);
        ReachesAvoidingBy(t, d.visited, m.name, deps[s], y);
      }
    }
  }

  lemma PushExtends(t: Table, m: Modifier, d: Search, closed: Search)
    requires m.name in t && t[m.name] == m && m.name !in d.visited
    requires Extends(t, Search(d.visited + {m.name}, d.result), closed)
    requires forall dep :: dep in Dependencies(m) && dep in t ==> dep in closed.visited
    ensures Extends(t, d, Search(closed.visited, closed.result + [m]))
  {
    var new_ := closed.result[|d.result|..];
    assert (closed.result + [m])[|d.result|..] == new_ + [m];
    NameSetConcat(new_, [m]);
    assert NameSet([m]) == {m.name};
  }

  /** The same for a list of dependencies: it enters what some name of the list reaches. */
  lemma {:induction false} AllExtends(t: Table, deps: seq<string>, d: Search)
    requires WellKeyed(t)
    ensures Extends(t, d, VisitAll(t, deps, d))
    ensures forall dep :: dep in deps && dep in t ==> dep in VisitAll(t, deps, d).visited
    ensures forall y :: y in VisitAll(t, deps, d).visited - d.visited ==>
      ReachedFrom(t, d.visited, deps, |deps|, y)
    decreases t.Keys - d.visited, 1, |deps|
  {
    if deps == [] {
      assert d.result[|d.result|..] == [];
    } else {
      var next := VisitDependency(t, deps[0], d);
      OneExtends(t, deps[0], d);
      assert t.Keys - next.visited == t.Keys - d.visited || t.Keys - next.visited < t.Keys - d.visited;
      AllExtends(t, deps[1..], next);
      var last := VisitAll(t, deps, d);
      ExtendsTrans(t, d, next, last);
      forall dep | dep in deps && dep in t ensures dep in last.visited {
        assert dep == deps[0] || dep in deps[1..];
      }
      forall y | y in last.visited - d.visited ensures ReachedFrom(t, d.visited, deps, |deps|, y) {
        if y !in next.visited {
          ReachedLater(t, d.visited, next.visited, deps, y);
        }
      }
    }
  }

  lemma ReachedIsReached(t: Table, v: set<string>, names: seq<string>, k: nat, y: string)
    requires k <= |names|
    ensures ReachedFrom(t, v, names, k, y) ==> exists s :: 0 <= s < k && Reaches(t, names[s], y)
  {
    if ReachedFrom(t, v, names, k, y) {
      var s :| 0 <= s < k && names[s] in t && ReachesAvoiding(t, v, names[s], y);
      assert Reaches(t, names[s], y);
    }
  }

  lemma ReachedLater(t: Table, v: set<string>, w: set<string>, deps: seq<string>, y: string)
    requires deps != [] && v <= w && ReachedFrom(t, w, deps[1..], |deps[1..]|, y)
    ensures ReachedFrom(t, v, deps, |deps|, y)
  {
    var rest := deps[1..];
    var s :| 0 <= s < |rest| && rest[s] in t && ReachesAvoiding(t, w, rest[s], y);
    AvoidsMore(t, v, w, rest[s], y);
    assert deps[s + 1] == rest[s];
  }

  lemma {:induction false} OneExtends(t: Table, dep: string, d: Search)
    requires WellKeyed(t)
    ensures var next := VisitDependency(t, dep, d);
      && Extends(t, d, next) && (dep in t ==> dep in next.visited)
      && forall y :: y in next.visited - d.visited ==> dep in t && ReachesAvoiding(t, d.visited, dep, y)
    decreases t.Keys - d.visited, 0, 1
  {
    if dep !in d.visited && dep in t {
      VisitExtends(t, t[dep], d);
    } else {
      assert d.result[|d.result|..] == [];
    }
  }

  // ---------------------------------------------------------------- the order of a list of dependencies

  lemma {:induction false} VisitAllConcat(t: Table, first: seq<string>, second: seq<string>, d: Search)
    requires WellKeyed(t)
    ensures VisitAll(t, first + second, d) == VisitAll(t, second, VisitAll(t, first, d))
    decreases |first|
  {
    if first == [] {
      assert first + second == second;
    } else {
      assert (first + second)[1..] == first[1..] + second;
      VisitAllConcat(t, first[1..], second, VisitDependency(t, first[0], d));
    }
  }

  /** Visited after the first `k` names: what they reach around the names visited before. */
  lemma VisitedIff(t: Table, names: seq<string>, d: Search, k: nat, y: string)
    requires WellKeyed(t) && k <= |names|
    ensures y in VisitAll(t, names[..k], d).visited
      <==> y in d.visited || ReachedFrom(t, d.visited, names, k, y)
  {
    var first := names[..k];
    var e := VisitAll(t, first, d);
    AllExtends(t, first, d);
    if y in e.visited && y !in d.visited {
      assert ReachedFrom(t, d.visited, first, |first|, y);
      var s :| 0 <= s < |first| && first[s] in t && ReachesAvoiding(t, d.visited, first[s], y);
      assert names[s] == first[s];
    }
    if ReachedFrom(t, d.visited, names, k, y) {
      var s :| 0 <= s < k && names[s] in t && ReachesAvoiding(t, d.visited, names[s], y);
      assert first[s] in first && first[s] in t;
      var p :| Path(t, p, names[s], y) && forall n :: n in p ==> n !in d.visited;
      StaysInside(t, d, e, p, names[s], y);
    }
  }

  lemma NamedInNew(t: Table, d: Search, e: Search, x: string)
    requires Extends(t, d, e) && x in e.visited - d.visited
    ensures x in t && t[x] in e.result[|d.result|..]
  {
    var new_ := e.result[|d.result|..];
    assert x in NameSet(new_);
    var m :| m in new_ && m.name == x;
  }

  /** What is entered earlier comes first. */
  lemma EnteredEarlier(t: Table, d: Search, e: Search, f: Search, x: string, y: string)
    requires Extends(t, d, e) && Extends(t, e, f)
    requires x in e.visited - d.visited && y in f.visited - e.visited
    ensures x in t && y in t && Before(f.result, t[x], t[y])
  {
    NamedInNew(t, d, e, x);
    NamedInNew(t, e, f, y);
    assert f.result == e.result + f.result[|e.result|..];
    assert t[x] in e.result;
    BeforeConcat(e.result, f.result[|e.result|..], t[x], t[y]);
  }

  /**
    What one of the first `k` names reaches comes before what none of them reaches.  (Both are entered here:
    neither was visited before.)
   */
  lemma {:induction false} EarlierNamesFirst(t: Table, names: seq<string>, d: Search, k: nat, x: string, y: string)
    requires WellKeyed(t) && k <= |names|
    requires x !in d.visited && ReachedFrom(t, d.visited, names, k, x)
    requires y !in d.visited && ReachedFrom(t, d.visited, names, |names|, y)
    requires !ReachedFrom(t, d.visited, names, k, y)
    ensures x in t && y in t && Before(VisitAll(t, names, d).result, t[x], t[y])
  {
    var e := VisitAll(t, names[..k], d);
    var f := VisitAll(t, names[k..], e);
    assert f == VisitAll(t, names, d) by {
      VisitAllConcat(t, names[..k], names[k..], d);
      assert names == names[..k] + names[k..];
    }
    VisitedIff(t, names, d, k, x);
    VisitedIff(t, names, d, k, y);
    assert y in f.visited by {
      VisitedIff(t, names, d, |names|, y);
      assert names[..|names|] == names;
    }
    AllExtends(t, names[..k], d);
    AllExtends(t, names[k..], e);
    EnteredEarlier(t, d, e, f, x, y);
  }

  /** A dependency that a visit enters comes before the modifier visited. */
  lemma EnteredBefore(t: Table, m: Modifier, d: Search, dep: string)
    requires WellKeyed(t) && m.name in t && t[m.name] == m && m.name !in d.visited
    requires dep in Dependencies(m) && dep in t && dep !in d.visited && dep != m.name
    ensures Before(Visit(t, m, d).result, t[dep], m)
  {
    var entered := Search(d.visited + {m.name}, d.result);
    var closed := VisitAll(t, Dependencies(m), entered);
    AllExtends(t, Dependencies(m), entered);
    NamedInNew(t, entered, closed, dep);
    BeforeConcat(closed.result, [m], t[dep], m);
  }

  /**
    In a visit, of two dependencies that are entered there the one listed first comes first, unless one listed
    no later than it reaches the other one around what was visited before.
   */
  lemma DependenciesInListOrder(t: Table, m: Modifier, d: Search, p: nat, q: nat)
    requires WellKeyed(t) && m.name in t && t[m.name] == m && m.name !in d.visited
    requires var deps := Dependencies(m); p < q < |deps| && deps[p] in t && deps[q] in t
    requires var deps := Dependencies(m); deps[p] !in d.visited + {m.name} && deps[q] !in d.visited + {m.name}
    requires !ReachedFrom(t, d.visited + {m.name}, Dependencies(m), p + 1, Dependencies(m)[q])
    ensures var deps := Dependencies(m); Before(Visit(t, m, d).result, t[deps[p]], t[deps[q]])
  {
    var deps := Dependencies(m);
    var entered := Search(d.visited + {m.name}, d.result);
    ReachesAvoidingSelf(t, entered.visited, deps[p]);
    ReachesAvoidingSelf(t, entered.visited, deps[q]);
    EarlierNamesFirst(t, deps, entered, p + 1, deps[p], deps[q]);
    BeforeConcat(VisitAll(t, deps, entered).result, [m], t[deps[p]], t[deps[q]]);
  }

  // ---------------------------------------------------------------- the order of the whole list

  function Names(ms: seq<Modifier>): seq<string> {
    seq(|ms|, i requires 0 <= i < |ms| => ms[i].name)
  }

  /** The outer loop visits the names of the list in order. */
  lemma {:induction false} RootsInOrder(t: Table, ms: seq<Modifier>, d: Search)
    requires WellKeyed(t) && forall m :: m in ms ==> m.name in t && t[m.name] == m
    ensures VisitRoots(t, ms, d) == VisitAll(t, Names(ms), d)
    decreases |ms|
  {
    if ms != [] {
      assert Names(ms)[0] == ms[0].name && Names(ms)[1..] == Names(ms[1..]);
      RootsInOrder(t, ms[1..], VisitDependency(t, ms[0].name, d));
    }
  }

  /** The modifier is one of the first `k` of the list, or one of them depends on it, directly or through others. */
  ghost predicate FromFirst(ms: seq<Modifier>, k: nat, m: Modifier)
    requires k <= |ms|
  {
    exists i :: 0 <= i < k && Reaches(TableOf(ms), ms[i].name, m.name)
  }

  lemma FromFirstIs(ms: seq<Modifier>, k: nat, m: Modifier)
    requires k <= |ms|
    ensures FromFirst(ms, k, m) <==> ReachedFrom(TableOf(ms), {}, Names(ms), k, m.name)
  {
    var t, names := TableOf(ms), Names(ms);
    if FromFirst(ms, k, m) {
      var i :| 0 <= i < k && Reaches(t, ms[i].name, m.name);
      var p :| Path(t, p, ms[i].name, m.name);
      assert forall n :: n in p ==> n !in {};
      assert Named(ms, ms[i].name);
      assert names[i] in t && ReachesAvoiding(t, {}, names[i], m.name);
    }
    if ReachedFrom(t, {}, names, k, m.name) {
      var s :| 0 <= s < k && names[s] in t && ReachesAvoiding(t, {}, names[s], m.name);
      assert Reaches(t, ms[s].name, m.name);
    }
  }

  lemma ListedIsFromFirst(ms: seq<Modifier>, k: nat, i: nat)
    requires i < k <= |ms|
    ensures FromFirst(ms, k, ms[i])
  {
    ReachesSelf(TableOf(ms), ms[i].name);
  }

  /**
    What comes with one of the first `k` modifiers precedes what does not, for every `k`: so every modifier
    comes along with the first one of the list that reaches it.
   */
  lemma ReachedFirstComesFirst(ms: seq<Modifier>, k: nat, a: Modifier, b: Modifier)
    requires UniqueNames(ms) && k <= |ms| && a in ms && b in ms
    requires FromFirst(ms, k, a) && !FromFirst(ms, k, b)
    ensures Before(Order(ms), a, b)
  {
    var t := TableOf(ms);
    TableIsList(ms);
    FromFirstIs(ms, k, a);
    FromFirstIs(ms, k, b);
    var i :| 0 <= i < |ms| && ms[i] == b;
    ListedIsFromFirst(ms, |ms|, i);
    FromFirstIs(ms, |ms|, b);
    EarlierNamesFirst(t, Names(ms), Search({}, []), k, a.name, b.name);
    RootsInOrder(t, ms, Search({}, []));
  }

  /** A modifier listed later comes first only if one listed no later than the other one reaches it. */
  lemma ListingOrderKept(ms: seq<Modifier>, i: nat, j: nat)
    requires UniqueNames(ms) && i < j < |ms|
    ensures Before(Order(ms), ms[j], ms[i]) ==> FromFirst(ms, i + 1, ms[j])
    ensures !FromFirst(ms, i + 1, ms[j]) ==> Before(Order(ms), ms[i], ms[j])
  {
    ListedIsFromFirst(ms, i + 1, i);
    if !FromFirst(ms, i + 1, ms[j]) {
      ReachedFirstComesFirst(ms, i + 1, ms[i], ms[j]);
      OrderIsPermutation(ms);
      NotBoth(Order(ms), ms[i], ms[j]);
    }
  }

  lemma NotBoth(r: seq<Modifier>, a: Modifier, b: Modifier)
    requires UniqueNames(r) && Before(r, a, b)
    ensures !Before(r, b, a)
  {
  }

  // ---------------------------------------------------------------- lists that respect their dependencies

  /** None of the first `n` modifiers depends on one that is listed after it. */
  ghost predicate NoForward(ms: seq<Modifier>, n: nat) {
    forall i, j :: 0 <= i < n && i < j < |ms| ==> ms[j].name !in Dependencies(ms[i])
  }

  /** No modifier depends on one that is listed after it. */
  ghost predicate Respecting(ms: seq<Modifier>) {
    NoForward(ms, |ms|)
  }

  lemma EdgeLeadsToFront(ms: seq<Modifier>, n: nat, i: nat, y: string) returns (k: nat)
    requires UniqueNames(ms) && NoForward(ms, n) && i < n <= |ms| && Edge(TableOf(ms), ms[i].name, y)
    ensures k <= i && ms[k].name == y
  {
    TableIsList(ms);
    assert ms[i] in ms;
    assert Named(ms, y);
    var m :| m in ms && m.name == y;
    k :| 0 <= k < |ms| && ms[k] == m;
  }

  /** There every chain of dependencies leads to the front. */
  lemma {:induction false} LeadsToFront(ms: seq<Modifier>, n: nat, p: seq<string>, i: nat, j: nat)
    requires UniqueNames(ms) && NoForward(ms, n) && i < n <= |ms| && j < |ms|
    requires Path(TableOf(ms), p, ms[i].name, ms[j].name)
    ensures j <= i
    decreases |p|
  {
    if |p| > 1 {
      PathTail(TableOf(ms), p, ms[i].name, ms[j].name);
      var k := EdgeLeadsToFront(ms, n, i, p[1]);
      LeadsToFront(ms, n, p[1..], k, j);
    }
  }

  lemma FrontIsFromFirst(ms: seq<Modifier>, n: nat, k: nat, j: nat)
    requires UniqueNames(ms) && NoForward(ms, n) && k <= n <= |ms| && j < |ms|
    ensures FromFirst(ms, k, ms[j]) <==> j < k
  {
    if FromFirst(ms, k, ms[j]) {
      var i :| 0 <= i < k && Reaches(TableOf(ms), ms[i].name, ms[j].name);
      var p :| Path(TableOf(ms), p, ms[i].name, ms[j].name);
      LeadsToFront(ms, n, p, i, j);
    }
    if j < k {
      ListedIsFromFirst(ms, k, j);
    }
  }

  /** From a root on, the search only adds. */
  lemma RootIsPrefix(t: Table, names: seq<string>, i: nat, none: Search, d: Search)
    requires WellKeyed(t) && i < |names| && names[i] in t && names[i] !in d.visited
    requires d == VisitAll(t, names[..i], none)
    ensures Visit(t, t[names[i]], d).result <= VisitAll(t, names, none).result
  {
    VisitAllConcat(t, names[..i], names[i..], none);
    assert names[..i] + names[i..] == names;
    assert names[i..][0] == names[i];
    AllExtends(t, names[i..][1..], Visit(t, t[names[i]], d));
  }

  /** The search as it is when the loop comes to modifier `i`, and finds it not yet visited. */
  lemma AtRoot(ms: seq<Modifier>, i: nat) returns (d: Search)
    requires UniqueNames(ms) && i < |ms| && !FromFirst(ms, i, ms[i])
    ensures WellKeyed(TableOf(ms)) && ms[i].name in TableOf(ms) && TableOf(ms)[ms[i].name] == ms[i]
    ensures forall m :: m in ms ==> (m.name in d.visited <==> FromFirst(ms, i, m))
    ensures ms[i].name !in d.visited && Visit(TableOf(ms), ms[i], d).result <= Order(ms)
  {
    var t, names, none := TableOf(ms), Names(ms), Search({}, []);
    assert forall m :: m in ms ==> m.name in t && t[m.name] == m by {
      TableIsList(ms);
    }
    d := VisitAll(t, names[..i], none);
    forall m | m in ms ensures m.name in d.visited <==> FromFirst(ms, i, m) {
      VisitedIff(t, names, none, i, m.name);
      FromFirstIs(ms, i, m);
    }
    assert ms[i] in ms;
    RootsInOrder(t, ms, none);
    RootIsPrefix(t, names, i, none, d);
  }

  lemma BeforeInPrefix(r: seq<Modifier>, s: seq<Modifier>, a: Modifier, b: Modifier)
    requires r <= s && Before(r, a, b)
    ensures Before(s, a, b)
  {
    assert s == r + s[|r|..];
    BeforeConcat(r, s[|r|..], a, b);
  }

  /**
    Of two dependencies that come along with modifier `i`, the one it lists first comes first, unless one it lists
    no later than that reaches the other one.
   */
  lemma DependenciesOfRoot(ms: seq<Modifier>, i: nat, p: nat, q: nat, a: Modifier, b: Modifier)
    requires UniqueNames(ms) && i < |ms| && p < q < |Dependencies(ms[i])| && a in ms && b in ms
    requires a.name == Dependencies(ms[i])[p] != ms[i].name && b.name == Dependencies(ms[i])[q] != ms[i].name
    requires !FromFirst(ms, i, ms[i]) && !FromFirst(ms, i, a) && !FromFirst(ms, i, b)
    requires forall s :: 0 <= s <= p ==> !Reaches(TableOf(ms), Dependencies(ms[i])[s], b.name)
    ensures Before(Order(ms), a, b)
  {
    var t, deps := TableOf(ms), Dependencies(ms[i]);
    var d := AtRoot(ms, i);
    TableIsList(ms);
    ReachedIsReached(t, d.visited + {ms[i].name}, deps, p + 1, b.name);
    DependenciesInListOrder(t, ms[i], d, p, q);
    BeforeInPrefix(Visit(t, ms[i], d).result, Order(ms), a, b);
  }

  /** Where two dependencies of the two kinds are listed. */
  lemma PlacesOf(m: Modifier, x: string, y: string) returns (p: nat, q: nat)
    requires m.requires_.Some? && x in m.requires_.value && m.requiresIfExists.Some? && y in m.requiresIfExists.value
    ensures p < q < |Dependencies(m)| && Dependencies(m)[p] == x && Dependencies(m)[q] == y
    ensures forall s :: 0 <= s <= p ==> Dependencies(m)[s] in m.requires_.value
  {
    var first, second := m.requires_.value, m.requiresIfExists.value;
    p :| p < |first| && first[p] == x;
    var k: nat :| k < |second| && second[k] == y;
    q := |first| + k;
  }

  lemma DifferentNames(ms: seq<Modifier>, a: Modifier, b: Modifier)
    requires UniqueNames(ms) && a in ms && b in ms && a != b
    ensures a.name != b.name
  {
    var i :| 0 <= i < |ms| && ms[i] == a;
    var j :| 0 <= j < |ms| && ms[j] == b;
  }

  /**
    What modifier `i` requires comes ahead of what it only requires if it exists, unless something that it
    requires reaches the latter.
   */
  lemma RequiredFirst(ms: seq<Modifier>, i: nat, a: Modifier, b: Modifier)
    requires UniqueNames(ms) && i < |ms| && a in ms && b in ms && a != ms[i] && b != ms[i]
    requires ms[i].requires_.Some? && a.name in ms[i].requires_.value
    requires ms[i].requiresIfExists.Some? && b.name in ms[i].requiresIfExists.value
    requires !FromFirst(ms, i, ms[i]) && !FromFirst(ms, i, a) && !FromFirst(ms, i, b)
    requires forall dep :: dep in ms[i].requires_.value ==> !Reaches(TableOf(ms), dep, b.name)
    ensures Before(Order(ms), a, b)
  {
    var p, q := PlacesOf(ms[i], a.name, b.name);
    DifferentNames(ms, ms[i], a);
    DifferentNames(ms, ms[i], b);
    DependenciesOfRoot(ms, i, p, q, a, b);
  }

  lemma {:induction false} FirstForward(ms: seq<Modifier>, n: nat) returns (i: nat)
    requires n <= |ms| && !NoForward(ms, n)
    ensures i < n && NoForward(ms, i) && !NoForward(ms, i + 1)
  {
    if NoForward(ms, n - 1) {
      i := n - 1;
    } else {
      i := FirstForward(ms, n - 1);
    }
  }

  lemma ForwardIsMoved(ms: seq<Modifier>, i: nat, j: nat)
    requires UniqueNames(ms) && i < j < |ms| && NoForward(ms, i) && ms[j].name in Dependencies(ms[i])
    ensures Before(Order(ms), ms[j], ms[i])
  {
    FrontIsFromFirst(ms, i, i, i);
    FrontIsFromFirst(ms, i, i, j);
    var d := AtRoot(ms, i);
    TableIsList(ms);
    assert ms[j] in ms;
    EnteredBefore(TableOf(ms), ms[i], d, ms[j].name);
    BeforeInPrefix(Visit(TableOf(ms), ms[i], d).result, Order(ms), ms[j], ms[i]);
  }

  /** The list is returned unchanged iff no modifier depends on one that is listed after it. */
  lemma {:induction false} UnchangedIffRespecting(ms: seq<Modifier>)
    requires UniqueNames(ms)
    ensures Order(ms) == ms <==> Respecting(ms)
  {
    if Respecting(ms) {
      OrderIsPermutation(ms);
      forall i, j | 0 <= i < j < |ms| ensures Before(Order(ms), ms[i], ms[j]) {
        FrontIsFromFirst(ms, |ms|, i + 1, j);
        ListingOrderKept(ms, i, j);
      }
      SamePairs(ms, Order(ms));
    } else {
      var i := FirstForward(ms, |ms|);
      var j :| i < j < |ms| && ms[j].name in Dependencies(ms[i]);
      ForwardIsMoved(ms, i, j);
      assert Before(ms, ms[i], ms[j]);
      NotBoth(ms, ms[i], ms[j]);
    }
  }

  // ---------------------------------------------------------------- the final order

  /**
    In terms of the list: two modifiers of which the first is listed earlier, and none listed no later than it
    reaches the second, come in the order of their phases, and of the list where these are the same.
   */
  lemma ListedOrderByPhase(ms: seq<Modifier>, i: nat, j: nat)
    requires UniqueNames(ms) && i < j < |ms| && !FromFirst(ms, i + 1, ms[j])
    requires Rank(PHASES, ms[i].phase).Some? && Rank(PHASES, ms[j].phase).Some?
    ensures var x, y := Rank(PHASES, ms[i].phase).value, Rank(PHASES, ms[j].phase).value;
      && (Before(OrderModifiers(ms), ms[i], ms[j]) <==> x <= y)
      && (Before(OrderModifiers(ms), ms[j], ms[i]) <==> y < x)
  {
    ListingOrderKept(ms, i, j);
    OrderMembers(ms);
    OrderIsPermutation(ms);
    NotBoth(Order(ms), ms[i], ms[j]);
    PhasesDistinct();
    ByPhaseIsStable(PHASES, Order(ms), ms[i], ms[j]);
    ByPhaseIsStable(PHASES, Order(ms), ms[j], ms[i]);
  }

  /** A list that respects its dependencies is only sorted by phase. */
  lemma RespectingIsSortedByPhase(ms: seq<Modifier>)
    requires UniqueNames(ms) && Respecting(ms)
    ensures forall a, b :: Before(OrderModifiers(ms), a, b) <==> PhaseBefore(PHASES, ms, a, b)
  {
    UnchangedIffRespecting(ms);
    OrderModifiersSorts(ms);
  }
}
