/** `forceUpdate`: the loop over the modifiers that `flip` can restart once. */
module PopperUpdate {
  import opened Sequences
  import opened PopperFlip

  /** What a modifier's `fn` is, as far as the loop is concerned; only `flip` writes `state.reset`. */
  datatype Fn = NoFn | Flip | Other

  /** One execution of a modifier and the placement it started from. */
  datatype Run = Run(index: nat, seen: Placement)

  ghost predicate OneFlip(fns: seq<Fn>) {
    forall i, j :: 0 <= i < j < |fns| ==> !(fns[i] == Flip && fns[j] == Flip)
  }

  /** The placement the modifier started from the last time it ran. */
  function LastSeen(runs: seq<Run>, index: nat): Option<Placement> {
    if runs == [] then None
    else if runs[|runs|-1].index == index then Some(runs[|runs|-1].seen)
    else LastSeen(runs[..|runs|-1], index)
  }

  /** Every modifier with a function last ran on the given placement. */
  ghost predicate AllSaw(fns: seq<Fn>, runs: seq<Run>, placement: Placement) {
    forall i :: 0 <= i < |fns| && fns[i] != NoFn ==> LastSeen(runs, i) == Some(placement)
  }

  /** The modifiers with a function among the first `n`, in order, all of them on the given placement. */
  function Pass(fns: seq<Fn>, n: nat, placement: Placement): seq<Run>
    requires n <= |fns|
  {
    if n == 0 then []
    else Pass(fns, n - 1, placement) + (if fns[n - 1] != NoFn then [Run(n - 1, placement)] else [])
  }

  lemma LastSeenSnoc(runs: seq<Run>, r: Run, index: nat)
    ensures LastSeen(runs + [r], index) == if r.index == index then Some(r.seen) else LastSeen(runs, index)
  {
    assert (runs + [r])[..|runs|] == runs;
  }

  lemma {:induction false} LastSeenInPass(before: seq<Run>, fns: seq<Fn>, n: nat, placement: Placement, i: nat)
    requires n <= |fns|
    ensures LastSeen(before + Pass(fns, n, placement), i)
      == if i < n && fns[i] != NoFn then Some(placement) else LastSeen(before, i)
  {
    if n == 0 {
      assert before + Pass(fns, n, placement) == before;
    } else {
      LastSeenInPass(before, fns, n - 1, placement, i);
      var pass := Pass(fns, n - 1, placement);
      LastSeenSnoc(before + pass, Run(n - 1, placement), i);
      assert before + (pass + [Run(n - 1, placement)]) == before + pass + [Run(n - 1, placement)];
      assert before + (pass + []) == before + pass;
    }
  }

  lemma PassSaw(before: seq<Run>, fns: seq<Fn>, placement: Placement)
    ensures AllSaw(fns, before + Pass(fns, |fns|, placement), placement)
  {
    forall i: nat | i < |fns| && fns[i] != NoFn
      ensures LastSeen(before + Pass(fns, |fns|, placement), i) == Some(placement)
    {
      LastSeenInPass(before, fns, |fns|, placement, i);
    }
  }

  lemma PassMissed(fns: seq<Fn>, at: nat, seen: Placement, placement: Placement)
    requires at < |fns| && fns[at] != NoFn && seen != placement
    ensures !AllSaw(fns, Pass(fns, |fns|, seen), placement)
  {
    LastSeenInPass([], fns, |fns|, seen, at);
    assert [] + Pass(fns, |fns|, seen) == Pass(fns, |fns|, seen);
  }

  /** The runs so far: up to `index`, in the first or the second pass. */
  ghost predicate Ran(fns: seq<Fn>, runs: seq<Run>, again: bool, at: nat, index: nat, first: Placement,
                      placement: Placement)
  {
    && index <= |fns|
    && if again then at + 1 < |fns| && runs == Pass(fns, at + 1, first) + Pass(fns, index, placement)
       else runs == Pass(fns, index, first)
  }

  lemma RanNext(fns: seq<Fn>, runs: seq<Run>, again: bool, at: nat, index: nat, first: Placement, placement: Placement)
    requires Ran(fns, runs, again, at, index, first, placement) && index < |fns|
    requires again || placement == first
    ensures Ran(fns, if fns[index] != NoFn then runs + [Run(index, placement)] else runs, again, at, index + 1, first,
                placement)
  {
    if again {
      var before, pass := Pass(fns, at + 1, first), Pass(fns, index, placement);
      assert before + (pass + [Run(index, placement)]) == before + pass + [Run(index, placement)];
      assert before + (pass + []) == before + pass;
    }
  }

  lemma SawIff(fns: seq<Fn>, runs: seq<Run>, flipped: bool, reset: bool, at: nat, first: Placement,
               placement: Placement)
    requires Ran(fns, runs, flipped && !reset, at, |fns|, first, placement)
    requires (flipped <==> placement != first) && (reset ==> flipped && at < |fns| && fns[at] == Flip)
    ensures AllSaw(fns, runs, placement) <==> !reset
  {
    if reset {
      PassMissed(fns, at, first, placement);
    } else if flipped {
      PassSaw(Pass(fns, at + 1, first), fns, placement);
    } else {
      PassSaw([], fns, placement);
      assert [] + Pass(fns, |fns|, placement) == Pass(fns, |fns|, placement);
    }
  }

  /** The placement that `flip` leaves behind when it is not skipped. */
  ghost predicate Chooses(g: Geometry, o: Options, p: Placement) {
    EarliestBest(Candidates(g, o), p, QualityIn(g, o))
  }

  /** `good(k, p)` holds of every placement that flip may choose in iteration k. */
  ghost predicate Means(good: (nat, Placement) -> bool, geometry: nat -> Geometry, o: Options) {
    forall k, p {:trigger Chooses(geometry(k), o, p)} :: Chooses(geometry(k), o, p) ==> good(k, p)
  }

  /** The parts of Popper's state that steer the loop; `skip` is `modifiersData.flip._skip`. */
  class Popper {
    var placement: Placement
    var reset: bool
    var skip: bool

    constructor (initial: Placement)
      ensures placement == initial && !reset && !skip
    {
      placement, reset, skip := initial, false, false;
    }

    /** `flip` with the geometry of the moment. */
    method RunFlip(g: Geometry, o: Options)
      requires AutoWorks(g)
      modifies this
      ensures old(skip) ==> unchanged(this)
      ensures !old(skip) ==>
        && EarliestBest(Candidates(g, o), placement, QualityIn(g, o))
        && (placement == old(placement) ==> unchanged(this))
        && (placement != old(placement) ==> reset && skip)
    {
      if skip {
        return;
      }
      var chosen := ChoosePlacement(g, o);
      if placement != chosen {
        skip := true;
        placement := chosen;
        reset := true;
      }
    }

    /** The loop before iteration `iterations`, at modifier `index`. */
    ghost predicate Looping(fns: seq<Fn>, o: Options, good: (nat, Placement) -> bool, initialSkip: bool,
                            iterations: nat, index: nat, flipped: bool, at: nat, runs: seq<Run>)
      reads this
    {
      && index <= |fns|
      && (flipped <==> placement != o.placement)
      && skip == (initialSkip || flipped)
      && (reset ==> flipped && index == at + 1)
      && (flipped ==> !initialSkip && at < |fns| && fns[at] == Flip)
      && iterations == (if flipped && !reset then at + 2 + index else index)
      && (!initialSkip ==> forall i :: 0 <= i < |fns| && fns[i] == Flip && (i < index || flipped) ==>
            good(i, placement))
      && Ran(fns, runs, flipped && !reset, at, index, o.placement, placement)
    }

    lemma Finished(fns: seq<Fn>, o: Options, good: (nat, Placement) -> bool, initialSkip: bool,
                   iterations: nat, flipped: bool, at: nat, runs: seq<Run>)
      requires Looping(fns, o, good, initialSkip, iterations, |fns|, flipped, at, runs)
      ensures iterations == (if flipped && at + 1 < |fns| then at + 2 + |fns| else |fns|) <= 2 * |fns|
      ensures reset <==> flipped && at + 1 == |fns|
      ensures AllSaw(fns, runs, placement) <==> !reset
      ensures runs == if flipped && at + 1 < |fns|
                      then Pass(fns, at + 1, o.placement) + Pass(fns, |fns|, placement)
                      else Pass(fns, |fns|, o.placement)
    {
      SawIff(fns, runs, flipped, reset, at, o.placement, placement);
    }

    /** The loop begins again. */
    method Restart(fns: seq<Fn>, o: Options, ghost good: (nat, Placement) -> bool, initialSkip: bool,
                   iterations: nat, index: nat, ghost flipped: bool, ghost at: nat, ghost runs: seq<Run>)
      requires index < |fns| && reset
      requires Looping(fns, o, good, initialSkip, iterations, index, flipped, at, runs)
      modifies `reset
      ensures !reset && Looping(fns, o, good, initialSkip, iterations + 1, 0, flipped, at, runs)
    {
      reset := false;
      assert Pass(fns, at + 1, o.placement) + Pass(fns, 0, placement) == Pass(fns, at + 1, o.placement);
    }

    /** `flip` in iteration k. */
    method FlipNow(o: Options, geometry: nat -> Geometry, ghost good: (nat, Placement) -> bool, k: nat)
      requires AutoWorks(geometry(k)) && Means(good, geometry, o)
      modifies this
      ensures old(skip) ==> unchanged(this)
      ensures !old(skip) ==>
        && good(k, placement)
        && (placement == old(placement) ==> unchanged(this))
        && (placement != old(placement) ==> reset && skip)
    {
      ghost var wasSkipped := skip;
      RunFlip(geometry(k), o);
      assert !wasSkipped ==> Chooses(geometry(k), o, placement);
    }

    /** The modifier at `index` runs. */
    method RunModifier(fns: seq<Fn>, o: Options, geometry: nat -> Geometry, ghost good: (nat, Placement) -> bool,
                       initialSkip: bool, iterations: nat, index: nat, ghost flipped: bool, ghost at: nat,
                       ghost runs: seq<Run>)
      returns (ghost flippedNow: bool, ghost atNow: nat, ghost more: seq<Run>)
      requires OneFlip(fns) && index < |fns| && !reset && AutoWorks(geometry(iterations))
      requires Means(good, geometry, o)
      requires Looping(fns, o, good, initialSkip, iterations, index, flipped, at, runs)
      modifies this
      ensures Looping(fns, o, good, initialSkip, iterations + 1, index + 1, flippedNow, atNow, more)
      ensures (old(skip) ==> skip && !reset) && (reset ==> skip)
    {
      flippedNow, atNow, more := flipped, at, runs;
      RanNext(fns, runs, flipped, at, index, o.placement, placement);
      if fns[index] != NoFn {
        more := runs + [Run(index, placement)];
      }
      if fns[index] == Flip {
        ghost var wasSkipped := skip;
        FlipNow(o, geometry, good, iterations);
        if !wasSkipped && placement != o.placement {
          flippedNow, atNow := true, index;
        }
      }
    }

    /** The loop; `good(k, p)` is to hold of the placement that flip chooses in iteration k. */
    method RunModifiers(fns: seq<Fn>, o: Options, geometry: nat -> Geometry, ghost good: (nat, Placement) -> bool,
                        initialSkip: bool)
      returns (iterations: nat, ghost flipped: bool, ghost at: nat, ghost runs: seq<Run>)
      requires OneFlip(fns) && Means(good, geometry, o)
      requires forall k :: AutoWorks(geometry(k))
      requires !reset && placement == o.placement && skip == initialSkip
      modifies this
      ensures Looping(fns, o, good, initialSkip, iterations, |fns|, flipped, at, runs)
    {
      iterations, runs := 0, [];
      flipped, at := false, 0;
      var index := 0;
      while index < |fns|
        invariant Looping(fns, o, good, initialSkip, iterations, index, flipped, at, runs)
        decreases if !skip then 2 else if reset then 1 else 0, |fns| - index
      {
        if reset {
          Restart(fns, o, good, initialSkip, iterations, index, flipped, at, runs);
          index := 0;  // index = -1, then index++
          iterations := iterations + 1;
          continue;
        }
        flipped, at, runs := RunModifier(fns, o, geometry, good, initialSkip, iterations, index, flipped, at, runs);
        iterations := iterations + 1;
        index := index + 1;
      }
    }

    /**
      The update loop over modifiers `fns`; `geometry(k)` is what is measured in iteration k and
      `initialSkip` is the `_skip` the flip modifier's own data starts with.  `flipped` tells
      whether flip changed the placement, `at` in which iteration it ran unskipped.  The modifiers run in order,
      once, or up to flip and then all of them again on the new placement.
     */
    method ForceUpdate(fns: seq<Fn>, o: Options, geometry: nat -> Geometry, initialSkip: bool)
      returns (iterations: nat, ghost flipped: bool, ghost at: nat, ghost runs: seq<Run>)
      requires OneFlip(fns)
      requires forall k :: AutoWorks(geometry(k))
      modifies this
      ensures flipped <==> placement != o.placement
      ensures flipped ==> !initialSkip && at < |fns| && fns[at] == Flip
      ensures !initialSkip ==> forall i :: 0 <= i < |fns| && fns[i] == Flip ==>
        EarliestBest(Candidates(geometry(i), o), placement, QualityIn(geometry(i), o))
      ensures iterations == if flipped && at + 1 < |fns| then at + 2 + |fns| else |fns|
      ensures iterations <= 2 * |fns|
      ensures reset <==> flipped && at + 1 == |fns|
      ensures AllSaw(fns, runs, placement) <==> !reset
      ensures runs == if flipped && at + 1 < |fns|
                      then Pass(fns, at + 1, o.placement) + Pass(fns, |fns|, placement)
                      else Pass(fns, |fns|, o.placement)
    {
      reset, placement, skip := false, o.placement, initialSkip;
      ghost var good := (k: nat, p: Placement) => Chooses(geometry(k), o, p);
      iterations, flipped, at, runs := RunModifiers(fns, o, geometry, good, initialSkip);
      Finished(fns, o, good, initialSkip, iterations, flipped, at, runs);
      assert !initialSkip ==> forall i :: 0 <= i < |fns| && fns[i] == Flip ==> good(i, placement);
    }
  }
}
