/**
  Replacing several placeholders one after the other, and the single left-to-right pass it
  amounts to.
 */
module Placeholders {
  import opened Sequences
  import opened TextReplace

  datatype Pair = Pair(key: string, value: string)

  predicate NonEmptyKeys(pairs: seq<Pair>) {
    forall p :: p in pairs ==> p.key != ""
  }

  /** The pairs are applied in order, each to the whole text. */
  function ApplyAll(s: string, pairs: seq<Pair>): string
    requires NonEmptyKeys(pairs)
  {
    if pairs == [] then s
    else
      var last := pairs[|pairs|-1];
      Replace(ApplyAll(s, pairs[..|pairs|-1]), last.key, last.value)
  }

  lemma ApplySnoc(s: string, pairs: seq<Pair>, p: Pair)
    requires NonEmptyKeys(pairs) && p.key != ""
    ensures NonEmptyKeys(pairs + [p])
    ensures ApplyAll(s, pairs + [p]) == Replace(ApplyAll(s, pairs), p.key, p.value)
  {
    assert (pairs + [p])[..|pairs|] == pairs;
  }

  /** The first pair whose key the text starts with. */
  function Lookup(s: string, pairs: seq<Pair>): Option<Pair> {
    if pairs == [] then None
    else if pairs[0].key <= s then Some(pairs[0])
    else Lookup(s, pairs[1..])
  }

  lemma {:induction false} LookupFinds(s: string, pairs: seq<Pair>)
    ensures Lookup(s, pairs).Some? ==> Lookup(s, pairs).value in pairs && Lookup(s, pairs).value.key <= s
    ensures Lookup(s, pairs).None? ==> forall p :: p in pairs ==> !(p.key <= s)
  {
    if pairs != [] && !(pairs[0].key <= s) {
      LookupFinds(s, pairs[1..]);
      assert pairs == [pairs[0]] + pairs[1..];
    }
  }

  /** One pass over the text that replaces any key where it stands and copies all other text. */
  function SinglePass(s: string, pairs: seq<Pair>): string
    requires NonEmptyKeys(pairs)
    decreases |s|
  {
    if s == "" then ""
    else
      LookupFinds(s, pairs);
      match Lookup(s, pairs)
      case Some(p) => p.value + SinglePass(s[|p.key|..], pairs)
      case None => [s[0]] + SinglePass(s[1..], pairs)
  }

  /** A `$` that is followed by other characters only. */
  predicate IsKey(key: string) {
    key != "" && key[0] == '$' && '$' !in key[1..]
  }

  predicate AllKeys(pairs: seq<Pair>) {
    NonEmptyKeys(pairs) && forall p :: p in pairs ==> IsKey(p.key)
  }

  /** Every pair has a well-formed key, and no value can become part of a key. */
  ghost predicate Independent(pairs: seq<Pair>) {
    forall p, q :: p in pairs && q in pairs ==> IsKey(p.key) && '$' !in q.value && q.value != "" && q.value[0] !in p.key
  }

  // ---------------------------------------------------------------- a replacement and the other keys

  /** Replacing `key` neither creates nor destroys an occurrence of dollar-free text at the front. */
  lemma {:induction false} FrontKept(w: string, s: string, key: string, value: string)
    requires IsKey(key) && value != "" && '$' !in w && value[0] !in w
    ensures w <= s <==> w <= Replace(s, key, value)
    decreases |w|
  {
    if w != "" && s != "" {
      if key <= s {
        assert s[0] == '$' && w[0] in w;
        assert Replace(s, key, value)[0] == value[0];
      } else {
        FrontKept(w[1..], s[1..], key, value);
        var r := Replace(s[1..], key, value);
        PrefixCons(w, s);
        assert Replace(s, key, value) == [s[0]] + r;
        PrefixCons(w, [s[0]] + r);
        assert ([s[0]] + r)[1..] == r;
      }
    }
  }

  lemma PrefixCons(w: string, s: string)
    requires w != "" && s != ""
    ensures w <= s <==> w[0] == s[0] && w[1..] <= s[1..]
  {
    if w[0] == s[0] && w[1..] <= s[1..] {
      assert w == [w[0]] + w[1..] && s == [s[0]] + s[1..];
    }
  }

  /** Where `key` itself does not stand, the replacement keeps which keys stand there. */
  lemma KeyKept(g: string, s: string, key: string, value: string)
    requires IsKey(key) && IsKey(g) && value != "" && value[0] !in g
    requires s != "" && !(key <= s)
    ensures g <= s <==> g <= Replace(s, key, value)
  {
    var r := Replace(s[1..], key, value);
    FrontKept(g[1..], s[1..], key, value);
    PrefixCons(g, s);
    PrefixCons(g, [s[0]] + r);
    assert ([s[0]] + r)[1..] == r;
  }

  lemma {:induction false} SameLookup(s: string, r: string, pairs: seq<Pair>)
    requires forall p :: p in pairs ==> (p.key <= s <==> p.key <= r)
    ensures Lookup(s, pairs) == Lookup(r, pairs)
  {
    if pairs != [] {
      assert pairs[0] in pairs;
      SameLookup(s, r, pairs[1..]);
    }
  }

  /** The pass copies text without `$`. */
  lemma {:induction false} PassSkips(plain: string, rest: string, pairs: seq<Pair>)
    requires '$' !in plain && AllKeys(pairs)
    ensures SinglePass(plain + rest, pairs) == plain + SinglePass(rest, pairs)
    decreases |plain|
  {
    if plain == "" {
      assert plain + rest == rest;
    } else {
      var s := plain + rest;
      assert s[0] == plain[0] && s[1..] == plain[1..] + rest;
      LookupFinds(s, pairs);
      PassSkips(plain[1..], rest, pairs);
      assert plain == [plain[0]] + plain[1..];
    }
  }

  /** A replacement copies dollar-free text, too. */
  lemma {:induction false} ReplaceSkipsPlain(plain: string, rest: string, key: string, value: string)
    requires IsKey(key) && '$' !in plain
    ensures Replace(plain + rest, key, value) == plain + Replace(rest, key, value)
    decreases |plain|
  {
    if plain == "" {
      assert plain + rest == rest;
    } else {
      var s := plain + rest;
      assert s[0] == plain[0] && s[1..] == plain[1..] + rest;
      ReplaceSkipsPlain(plain[1..], rest, key, value);
      assert plain == [plain[0]] + plain[1..];
    }
  }

  /** The replacement steps over another key that stands at the front. */
  lemma ReplaceStepsOver(g: string, s: string, key: string, value: string)
    requires IsKey(key) && IsKey(g) && g <= s && !(key <= s)
    ensures Replace(s, key, value) == g + Replace(s[|g|..], key, value)
  {
    ReplaceSkipsPlain(g[1..], s[|g|..], key, value);
    assert s[1..] == g[1..] + s[|g|..];
    assert g == [s[0]] + g[1..];
  }

  /** Replacing one key first and passing over the rest is one pass with that key in front. */
  lemma {:induction false} ReplaceThenPass(s: string, first: Pair, pairs: seq<Pair>)
    requires Independent([first] + pairs)
    ensures AllKeys(pairs) && AllKeys([first] + pairs) && IsKey(first.key)
    ensures SinglePass(Replace(s, first.key, first.value), pairs) == SinglePass(s, [first] + pairs)
    decreases |s|
  {
    var all := [first] + pairs;
    assert first in all && forall p :: p in pairs ==> p in all;
    assert all[1..] == pairs;
    if s != "" {
      if first.key <= s {
        var rest := s[|first.key|..];
        ReplaceThenPass(rest, first, pairs);
        PassSkips(first.value, Replace(rest, first.key, first.value), pairs);
      } else {
        StepPast(s, first, pairs);
      }
    }
  }

  lemma {:induction false} StepPast(s: string, first: Pair, pairs: seq<Pair>)
    requires Independent([first] + pairs) && s != "" && !(first.key <= s)
    requires AllKeys(pairs) && AllKeys([first] + pairs) && IsKey(first.key)
    ensures SinglePass(Replace(s, first.key, first.value), pairs) == SinglePass(s, [first] + pairs)
    decreases |s|, 0
  {
    var all, r := [first] + pairs, Replace(s, first.key, first.value);
    assert first in all && forall p :: p in pairs ==> p in all;
    assert all[1..] == pairs;
    forall p | p in pairs ensures p.key <= s <==> p.key <= r {
      KeyKept(p.key, s, first.key, first.value);
    }
    SameLookup(s, r, pairs);
    LookupFinds(s, pairs);
    match Lookup(s, pairs)
    case Some(p) =>
      ReplaceStepsOver(p.key, s, first.key, first.value);
      ReplaceThenPass(s[|p.key|..], first, pairs);
      assert r[|p.key|..] == Replace(s[|p.key|..], first.key, first.value);
    case None =>
      ReplaceThenPass(s[1..], first, pairs);
      assert r[1..] == Replace(s[1..], first.key, first.value);
  }

  lemma {:induction false} ApplyHead(s: string, first: Pair, pairs: seq<Pair>)
    requires NonEmptyKeys([first] + pairs)
    ensures NonEmptyKeys(pairs) && first.key != ""
    ensures ApplyAll(s, [first] + pairs) == ApplyAll(Replace(s, first.key, first.value), pairs)
    decreases |pairs|
  {
    var all := [first] + pairs;
    assert first in all && forall p :: p in pairs ==> p in all;
    if pairs == [] {
      assert all[..0] == [];
    } else {
      var rest := pairs[..|pairs|-1];
      assert all[..|all|-1] == [first] + rest;
      assert forall p :: p in [first] + rest ==> p in all;
      ApplyHead(s, first, rest);
    }
  }

  lemma {:induction false} NothingToPass(s: string)
    ensures SinglePass(s, []) == s
    decreases |s|
  {
    if s != "" {
      NothingToPass(s[1..]);
    }
  }

  /**
    For every text whatever: applying independent placeholders one after the other is the same
    as one simultaneous left-to-right substitution, so nothing inserted is ever rewritten.
   */
  lemma {:induction false} SequentialIsSinglePass(s: string, pairs: seq<Pair>)
    requires Independent(pairs)
    ensures AllKeys(pairs) && ApplyAll(s, pairs) == SinglePass(s, pairs)
    decreases |pairs|
  {
    if pairs == [] {
      NothingToPass(s);
    } else {
      var first, rest := pairs[0], pairs[1..];
      assert pairs == [first] + rest;
      assert Independent(rest);
      ApplyHead(s, first, rest);
      SequentialIsSinglePass(Replace(s, first.key, first.value), rest);
      ReplaceThenPass(s, first, rest);
    }
  }

  // ---------------------------------------------------------------- no placeholder survives

  lemma {:induction false} FrontNotCreated(w: string, s: string, pairs: seq<Pair>)
    requires Independent(pairs) && AllKeys(pairs)
    requires '$' !in w && forall p :: p in pairs ==> p.value[0] !in w
    requires w <= SinglePass(s, pairs)
    ensures w <= s
    decreases |w|
  {
    if w != "" && s != "" {
      LookupFinds(s, pairs);
      var out := SinglePass(s, pairs);
      assert w[0] == out[0] && w[0] in w;
      if Lookup(s, pairs).None? {
        PrefixCons(w, out);
        assert out[1..] == SinglePass(s[1..], pairs);
        FrontNotCreated(w[1..], s[1..], pairs);
        PrefixCons(w, s);
      }
    }
  }

  lemma KeyNotAtFront(g: string, s: string, pairs: seq<Pair>)
    requires Independent(pairs) && AllKeys(pairs) && exists p :: p in pairs && p.key == g
    ensures !(g <= SinglePass(s, pairs))
  {
    var out := SinglePass(s, pairs);
    assert IsKey(g) && g[0] in g;
    LookupFinds(s, pairs);
    match Lookup(s, pairs)
    case Some(p) => assert out[0] == p.value[0];
    case None =>
      if s != "" {
        assert out[1..] == SinglePass(s[1..], pairs);
        PrefixCons(g, out);
        PrefixCons(g, s);
        if g[1..] <= SinglePass(s[1..], pairs) {
          FrontNotCreated(g[1..], s[1..], pairs);
        }
      }
  }

  /** After the pass no placeholder of the list occurs anywhere. */
  lemma {:induction false} NoneLeft(s: string, pairs: seq<Pair>, g: string, at: nat)
    requires Independent(pairs) && AllKeys(pairs) && exists p :: p in pairs && p.key == g
    ensures !Matches(SinglePass(s, pairs), g, at)
    decreases |s|
  {
    var out := SinglePass(s, pairs);
    assert out[0..] == out;
    KeyNotAtFront(g, s, pairs);
    if 0 < at <= |out| {
      LookupFinds(s, pairs);
      match Lookup(s, pairs)
      case Some(p) =>
        var rest := SinglePass(s[|p.key|..], pairs);
        if at < |p.value| {
          assert out[at..][0] == p.value[at];
        } else {
          NoneLeft(s[|p.key|..], pairs, g, at - |p.value|);
          assert out[at..] == rest[at - |p.value|..];
        }
      case None =>
        NoneLeft(s[1..], pairs, g, at - 1);
        assert out[at..] == SinglePass(s[1..], pairs)[at - 1..];
    }
  }
}
