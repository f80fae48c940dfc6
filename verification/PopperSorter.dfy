/** The imperative form of `order`: closures over a map, a visited set and a result array. */
module PopperSorter {
  import opened PopperOrder

  class Sorter {
    var table: Table
    var visited: set<string>
    var result: seq<Modifier>

    function State(): Search
      reads this
    {
      Search(visited, result)
    }

    constructor (modifiers: seq<Modifier>)
      ensures table == TableOf(modifiers) && State() == Search({}, [])
    {
      table, visited, result := map[], {}, [];
      new;
      for i := 0 to |modifiers|
        invariant table == TableOf(modifiers[..i]) && State() == Search({}, [])
      {
        assert modifiers[..i + 1][..i] == modifiers[..i];
        table := table[modifiers[i].name := modifiers[i]];
      }
      assert modifiers[..|modifiers|] == modifiers;
    }

    method Sort(modifier: Modifier)
      requires WellKeyed(table) && modifier.name in table && modifier.name !in visited
      modifies this
      ensures table == old(table) && State() == Visit(table, modifier, old(State()))
      decreases table.Keys - visited
    {
      ghost var before := visited;
      visited := visited + {modifier.name};
      assert table.Keys - visited < table.Keys - before by {
        assert modifier.name in table.Keys - before && modifier.name !in table.Keys - visited;
      }
      ghost var entered := State();
      var deps := Dependencies(modifier);
      var i := 0;
      while i < |deps|
        invariant 0 <= i <= |deps| && table == old(table) && entered.visited <= visited
        invariant VisitAll(table, deps[i..], State()) == VisitAll(table, deps, entered)
      {
        assert deps[i..][0] == deps[i] && deps[i..][1..] == deps[i + 1..];
        if deps[i] !in visited {
          if deps[i] in table {
            assert table.Keys - visited <= table.Keys - entered.visited;
            assert table.Keys - visited == table.Keys - entered.visited
                   || table.Keys - visited < table.Keys - entered.visited;
            Sort(table[deps[i]]);
          }
        }
        i := i + 1;
      }
      result := result + [modifier];
    }

    method SortAll(modifiers: seq<Modifier>)
      requires table == TableOf(modifiers) && State() == Search({}, [])
      modifies this
      ensures result == Order(modifiers)
    {
      assert forall m :: m in modifiers ==> Named(modifiers, m.name);
      ghost var start := State();
      var i := 0;
      while i < |modifiers|
        invariant 0 <= i <= |modifiers| && table == TableOf(modifiers)
        invariant VisitRoots(table, modifiers[i..], State()) == VisitRoots(table, modifiers, start)
      {
        assert modifiers[i..][0] == modifiers[i] && modifiers[i..][1..] == modifiers[i + 1..];
        if modifiers[i].name !in visited {
          Sort(modifiers[i]);
        }
        i := i + 1;
      }
    }
  }

  /** `order(modifiers)`. */
  method OrderModifiersByDependency(modifiers: seq<Modifier>) returns (ordered: seq<Modifier>)
    ensures ordered == Order(modifiers)
  {
    var sorter := new Sorter(modifiers);
    sorter.SortAll(modifiers);
    ordered := sorter.result;
  }
}
