/** `mergeByName`: one modifier per name, later definitions overriding earlier ones. */
module PopperMerge {
  import opened Sequences
  import opened PopperOrder
  import opened PopperPhases

  function Over<T>(old_: Option<T>, new_: Option<T>): Option<T> {
    if new_.Some? then new_ else old_
  }

  /** `Object.assign({}, existing, current, {options: ..., data: ...})`. */
  function Merge(existing: Modifier, current: Modifier): Modifier {
    Modifier(current.name,
             Over(existing.phase, current.phase),
             Over(existing.enabled, current.enabled),
             Over(existing.fn, current.fn),
             Over(existing.requires_, current.requires_),
             Over(existing.requiresIfExists, current.requiresIfExists),
             existing.options + current.options,
             existing.data + current.data)
  }

  /** The accumulator object: its keys in insertion order, and their values. */
  datatype Merged = Merged(keys: seq<string>, values: Table)

  function Add(acc: Merged, current: Modifier): Merged {
    if current.name in acc.values then
      acc.(values := acc.values[current.name := Merge(acc.values[current.name], current)])
    else
      Merged(acc.keys + [current.name], acc.values[current.name := current])
  }

  function MergeAll(ms: seq<Modifier>): Merged {
    if ms == [] then Merged([], map[]) else Add(MergeAll(ms[..|ms|-1]), ms[|ms|-1])
  }

  ghost predicate MergedInv(acc: Merged) {
    && Distinct(acc.keys)
    && (forall k :: k in acc.keys <==> k in acc.values)
    && WellKeyed(acc.values)
  }

  lemma AddKeepsInv(acc: Merged, current: Modifier)
    requires MergedInv(acc)
    ensures MergedInv(Add(acc, current))
  {
    var next := Add(acc, current);
    if current.name !in acc.values {
      assert current.name !in acc.keys;
      assert forall k :: k in next.keys <==> k in acc.keys || k == current.name;
    }
  }

  lemma {:induction false} MergeAllInv(ms: seq<Modifier>)
    ensures MergedInv(MergeAll(ms))
    ensures forall k :: k in MergeAll(ms).values <==> Named(ms, k)
  {
    if ms != [] {
      var rest, last := ms[..|ms|-1], ms[|ms|-1];
      MergeAllInv(rest);
      AddKeepsInv(MergeAll(rest), last);
      assert ms == rest + [last];
      forall k ensures k in MergeAll(ms).values <==> Named(ms, k) {
        assert Named(ms, k) <==> Named(rest, k) || k == last.name;
      }
    }
  }

  /** `Object.keys(merged).map(key => merged[key])`. */
  function Values(acc: Merged): seq<Modifier>
    requires forall k :: k in acc.keys ==> k in acc.values
  {
    seq(|acc.keys|, i requires 0 <= i < |acc.keys| => acc.values[acc.keys[i]])
  }

  function MergeByName(ms: seq<Modifier>): seq<Modifier> {
    MergeAllInv(ms);
    Values(MergeAll(ms))
  }

  /** The loop form: the accumulator is updated once per modifier, then read key by key. */
  method MergeModifiers(ms: seq<Modifier>) returns (merged: seq<Modifier>)
    ensures merged == MergeByName(ms)
  {
    MergeAllInv(ms);
    var keys, values: Table := [], map[];
    for i := 0 to |ms|
      invariant Merged(keys, values) == MergeAll(ms[..i])
    {
      assert ms[..i + 1][..i] == ms[..i];
      if ms[i].name in values {
        values := values[ms[i].name := Merge(values[ms[i].name], ms[i])];
      } else {
        keys, values := keys + [ms[i].name], values[ms[i].name := ms[i]];
      }
    }
    assert ms[..|ms|] == ms;
    merged := Values(Merged(keys, values));
  }

  // ---------------------------------------------------------------- what a merged modifier is

  /** The definitions of one name, in order. */
  function Definitions(ms: seq<Modifier>, name: string): seq<Modifier> {
    if ms == [] then []
    else
      var rest, last := ms[..|ms|-1], ms[|ms|-1];
      Definitions(rest, name) + (if last.name == name then [last] else [])
  }

  /** The last definition that has the field decides it. */
  function LastDefined<T>(ds: seq<Modifier>, field: Modifier -> Option<T>): Option<T> {
    if ds == [] then None
    else if field(ds[|ds|-1]).Some? then field(ds[|ds|-1])
    else LastDefined(ds[..|ds|-1], field)
  }

  /** All keys of all definitions, each with its last value. */
  function Overlaid(ds: seq<Modifier>, field: Modifier -> map<string, Payload>): map<string, Payload> {
    if ds == [] then map[] else Overlaid(ds[..|ds|-1], field) + field(ds[|ds|-1])
  }

  function PhaseOf(m: Modifier): Option<string> { m.phase }
  function EnabledOf(m: Modifier): Option<bool> { m.enabled }
  function FnOf(m: Modifier): Option<Payload> { m.fn }
  function RequiresOf(m: Modifier): Option<seq<string>> { m.requires_ }
  function RequiresIfExistsOf(m: Modifier): Option<seq<string>> { m.requiresIfExists }
  function OptionsOf(m: Modifier): map<string, Payload> { m.options }
  function DataOf(m: Modifier): map<string, Payload> { m.data }

  /** The modifier a list of definitions of one name describes. */
  function Described(name: string, ds: seq<Modifier>): Modifier {
    Modifier(name, LastDefined(ds, PhaseOf), LastDefined(ds, EnabledOf), LastDefined(ds, FnOf),
             LastDefined(ds, RequiresOf), LastDefined(ds, RequiresIfExistsOf),
             Overlaid(ds, OptionsOf), Overlaid(ds, DataOf))
  }

  lemma LastDefinedSnoc<T>(ds: seq<Modifier>, m: Modifier, field: Modifier -> Option<T>)
    ensures LastDefined(ds + [m], field) == Over(LastDefined(ds, field), field(m))
  {
    assert (ds + [m])[..|ds|] == ds;
  }

  lemma OverlaidSnoc(ds: seq<Modifier>, m: Modifier, field: Modifier -> map<string, Payload>)
    ensures Overlaid(ds + [m], field) == Overlaid(ds, field) + field(m)
  {
    assert (ds + [m])[..|ds|] == ds;
  }

  lemma DescribedSnoc(name: string, ds: seq<Modifier>, m: Modifier)
    requires m.name == name
    ensures Described(name, ds + [m]) == if ds == [] then m else Merge(Described(name, ds), m)
  {
    LastDefinedSnoc(ds, m, PhaseOf);
    LastDefinedSnoc(ds, m, EnabledOf);
    LastDefinedSnoc(ds, m, FnOf);
    LastDefinedSnoc(ds, m, RequiresOf);
    LastDefinedSnoc(ds, m, RequiresIfExistsOf);
    OverlaidSnoc(ds, m, OptionsOf);
    OverlaidSnoc(ds, m, DataOf);
    if ds == [] {
      assert map[] + m.options == m.options && map[] + m.data == m.data;
    }
  }

  lemma {:induction false} MergedValue(ms: seq<Modifier>, name: string)
    ensures name in MergeAll(ms).values <==> Definitions(ms, name) != []
    ensures name in MergeAll(ms).values ==> MergeAll(ms).values[name] == Described(name, Definitions(ms, name))
  {
    if ms != [] {
      var rest, last := ms[..|ms|-1], ms[|ms|-1];
      MergedValue(rest, name);
      if last.name == name {
        DescribedSnoc(name, Definitions(rest, name), last);
      } else {
        assert Definitions(ms, name) == Definitions(rest, name);
      }
    }
  }

  lemma MergedNamesAreUnique(ms: seq<Modifier>)
    ensures UniqueNames(MergeByName(ms))
  {
    MergeAllInv(ms);
  }

  lemma MergedMember(acc: Merged, m: Modifier)
    requires MergedInv(acc)
    ensures m in Values(acc) <==> m.name in acc.values && acc.values[m.name] == m
  {
    if m.name in acc.values && acc.values[m.name] == m {
      var i :| 0 <= i < |acc.keys| && acc.keys[i] == m.name;
      assert Values(acc)[i] == m;
    }
  }

  lemma MergedIff(ms: seq<Modifier>, m: Modifier)
    ensures m in MergeByName(ms) <==>
      Definitions(ms, m.name) != [] && m == Described(m.name, Definitions(ms, m.name))
  {
    MergeAllInv(ms);
    MergedMember(MergeAll(ms), m);
    MergedValue(ms, m.name);
  }

  /**
    `mergeByName` returns, for each name once, the modifier described by all its definitions:
    every field as the last definition that has it says, options and data overlaid key by key.
   */
  lemma {:induction false} MergeByNameMerges(ms: seq<Modifier>)
    ensures UniqueNames(MergeByName(ms))
    ensures forall m :: m in MergeByName(ms) <==>
      Definitions(ms, m.name) != [] && m == Described(m.name, Definitions(ms, m.name))
  {
    MergedNamesAreUnique(ms);
    forall m
      ensures m in MergeByName(ms) <==>
        Definitions(ms, m.name) != [] && m == Described(m.name, Definitions(ms, m.name)) {
      MergedIff(ms, m);
    }
  }

  // ---------------------------------------------------------------- the order of the merged list

  /** `a` is defined ahead of the first definition of `b`. */
  ghost predicate DefinedFirst(ms: seq<Modifier>, a: string, b: string) {
    Named(ms, b) && exists i :: 0 <= i < |ms| && ms[i].name == a && !Named(ms[..i + 1], b)
  }

  lemma NamedSnoc(ms: seq<Modifier>, m: Modifier, name: string)
    ensures Named(ms + [m], name) <==> Named(ms, name) || m.name == name
  {
    assert forall x :: x in ms + [m] <==> x in ms || x == m;
    assert m in ms + [m];
  }

  lemma DefinedFirstSnoc(ms: seq<Modifier>, m: Modifier, a: string, b: string)
    ensures DefinedFirst(ms + [m], a, b) <==>
      DefinedFirst(ms, a, b) || (Named(ms, a) && m.name == b && !Named(ms, b))
  {
    var more := ms + [m];
    NamedSnoc(ms, m, b);
    if DefinedFirst(more, a, b) {
      var i :| 0 <= i < |more| && more[i].name == a && !Named(more[..i + 1], b);
      assert more[..|ms| + 1] == more;
      assert i < |ms| && more[..i + 1] == ms[..i + 1] && ms[i] in ms && ms[i].name == a;
    }
    if DefinedFirst(ms, a, b) {
      var i :| 0 <= i < |ms| && ms[i].name == a && !Named(ms[..i + 1], b);
      assert more[..i + 1] == ms[..i + 1] && more[i].name == a;
    }
    if Named(ms, a) && m.name == b && !Named(ms, b) {
      var x :| x in ms && x.name == a;
      var i :| 0 <= i < |ms| && ms[i] == x;
      NotNamedInPrefix(ms, i + 1, b);
      assert more[..i + 1] == ms[..i + 1] && more[i].name == a;
    }
  }

  lemma NotNamedInPrefix(ms: seq<Modifier>, n: nat, name: string)
    requires n <= |ms|
    ensures Named(ms[..n], name) ==> Named(ms, name)
  {
    if Named(ms[..n], name) {
      var x :| x in ms[..n] && x.name == name;
      assert x in ms;
    }
  }

  lemma {:induction false} KeysInOrder(ms: seq<Modifier>, a: string, b: string)
    ensures Before(MergeAll(ms).keys, a, b) <==> DefinedFirst(ms, a, b)
  {
    if ms != [] {
      var rest, last := ms[..|ms|-1], ms[|ms|-1];
      var acc := MergeAll(rest);
      assert ms == rest + [last];
      KeysInOrder(rest, a, b);
      MergeAllInv(rest);
      DefinedFirstSnoc(rest, last, a, b);
      BeforeConcat(acc.keys, [last.name], a, b);
      BeforeSingle(last.name, a, b);
    }
  }

  lemma ValuesInOrder(acc: Merged, x: Modifier, y: Modifier)
    requires MergedInv(acc)
    ensures Before(Values(acc), x, y) <==> x in Values(acc) && y in Values(acc) && Before(acc.keys, x.name, y.name)
  {
    var r := Values(acc);
    if Before(r, x, y) {
      var i, j :| 0 <= i < j < |r| && r[i] == x && r[j] == y;
      assert acc.keys[i] == x.name && acc.keys[j] == y.name;
    }
    if x in r && y in r && Before(acc.keys, x.name, y.name) {
      MergedMember(acc, x);
      MergedMember(acc, y);
      var i, j :| 0 <= i < j < |acc.keys| && acc.keys[i] == x.name && acc.keys[j] == y.name;
      assert r[i] == x && r[j] == y;
    }
  }

  /** The merged modifiers come in the order of the first definitions of their names. */
  lemma MergedInOrder(ms: seq<Modifier>, x: Modifier, y: Modifier)
    requires x in MergeByName(ms) && y in MergeByName(ms)
    ensures Before(MergeByName(ms), x, y) <==> DefinedFirst(ms, x.name, y.name)
  {
    MergeAllInv(ms);
    ValuesInOrder(MergeAll(ms), x, y);
    KeysInOrder(ms, x.name, y.name);
  }

  /** What `setOptions` stores, for any list of modifiers, duplicates included. */
  lemma ScheduledModifiers(ms: seq<Modifier>)
    ensures var merged := MergeByName(ms);
      && UniqueNames(OrderModifiers(merged))
      && (forall m :: m in OrderModifiers(merged) <==>
            && Definitions(ms, m.name) != [] && m == Described(m.name, Definitions(ms, m.name))
            && m.phase.Some? && m.phase.value in PHASES)
      && (forall a, b :: Before(OrderModifiers(merged), a, b) <==> PhaseBefore(PHASES, Order(merged), a, b))
  {
    MergeByNameMerges(ms);
    OrderModifiersSorts(MergeByName(ms));
  }
}
