/**
  Popper's `flip`: a search through candidate placements, with a fallback that relaxes the
  checks one by one.  Geometry is an oracle: measured rectangles and overflows.
 */
module PopperFlip {
  import opened Sequences

  datatype Base = Top | Bottom | Right | Left | Auto
  datatype Variation = Plain | Start | End
  datatype Placement = Placement(base: Base, variation: Variation)

  datatype Size = Size(width: real, height: real)
  datatype Overflow = Overflow(top: real, bottom: real, right: real, left: real)

  /** What `detectOverflow`, `computeAutoPlacement` and the measured rectangles say. */
  datatype Geometry = Geometry(
    reference: Size, popper: Size,
    overflow: Placement -> Overflow,
    auto: Placement -> seq<Placement>)

  datatype Options = Options(
    placement: Placement, mainAxis: bool, altAxis: bool, flipVariations: bool,
    fallbackPlacements: Option<seq<Placement>>)

  function OppositeBase(b: Base): Base {
    match b
    case Top => Bottom
    case Bottom => Top
    case Right => Left
    case Left => Right
    case Auto => Auto
  }

  function Opposite(p: Placement): Placement {
    p.(base := OppositeBase(p.base))
  }

  function OppositeVariation(p: Placement): Placement {
    p.(variation := match p.variation case Start => End case End => Start case Plain => Plain)
  }

  function ExpandedFallbacks(p: Placement): seq<Placement> {
    if p.base == Auto then []
    else [OppositeVariation(p), Opposite(p), OppositeVariation(Opposite(p))]
  }

  function Fallbacks(o: Options): seq<Placement> {
    if o.fallbackPlacements.Some? then o.fallbackPlacements.value
    else if o.placement.variation == Plain || !o.flipVariations then [Opposite(o.placement)]
    else ExpandedFallbacks(o.placement)
  }

  /** Every `auto` entry is replaced by the placements computed for it. */
  function Expand(g: Geometry, ps: seq<Placement>): seq<Placement> {
    if ps == [] then []
    else (if ps[0].base == Auto then g.auto(ps[0]) else [ps[0]]) + Expand(g, ps[1..])
  }

  function Candidates(g: Geometry, o: Options): seq<Placement> {
    Expand(g, [o.placement] + Fallbacks(o))
  }

  /** `computeAutoPlacement` never comes back empty: it falls back to all placements of the kind. */
  ghost predicate AutoWorks(g: Geometry) {
    forall p :: g.auto(p) != []
  }

  lemma CandidatesNotEmpty(g: Geometry, o: Options)
    requires AutoWorks(g)
    ensures Candidates(g, o) != []
  {
    assert ([o.placement] + Fallbacks(o))[0] == o.placement;
  }

  // ---------------------------------------------------------------- the checks of one placement

  function OverflowAt(v: Overflow, b: Base): real {
    match b
    case Top => v.top
    case Bottom => v.bottom
    case Right => v.right
    case Left => v.left
    case Auto => 0.0  // never looked up for an expanded candidate
  }

  function MainVariationSide(g: Geometry, p: Placement): Base {
    var vertical := p.base == Top || p.base == Bottom;
    var side := if vertical then (if p.variation == Start then Right else Left)
                else (if p.variation == Start then Bottom else Top);
    var larger := if vertical then g.reference.width > g.popper.width else g.reference.height > g.popper.height;
    if larger then OppositeBase(side) else side
  }

  function Checks(g: Geometry, o: Options, p: Placement): seq<bool> {
    var v := g.overflow(p);
    var side := MainVariationSide(g, p);
    (if o.mainAxis then [OverflowAt(v, p.base) <= 0.0] else [])
    + (if o.altAxis then [OverflowAt(v, side) <= 0.0, OverflowAt(v, OppositeBase(side)) <= 0.0] else [])
  }

  predicate AllTrue(checks: seq<bool>) {
    forall i :: 0 <= i < |checks| ==> checks[i]
  }

  /** `checks.slice(0, n).every(check => check)` */
  predicate FirstPass(checks: seq<bool>, n: nat) {
    AllTrue(if n <= |checks| then checks[..n] else checks)
  }

  /** The number of checks passed before the first failure. */
  function Leading(checks: seq<bool>): nat {
    if checks == [] || !checks[0] then 0 else 1 + Leading(checks[1..])
  }

  lemma {:induction false} LeadingPass(checks: seq<bool>, n: nat)
    ensures Leading(checks) <= |checks|
    ensures FirstPass(checks, n) <==> n <= Leading(checks) || Leading(checks) == |checks|
  {
    if checks != [] && checks[0] {
      if n > 0 {
        LeadingPass(checks[1..], n - 1);
        var rest := checks[1..];
        var cut := if n <= |checks| then checks[..n] else checks;
        var cut' := if n - 1 <= |rest| then rest[..n - 1] else rest;
        assert cut == [true] + cut';
      } else {
        LeadingPass(checks[1..], 0);
      }
    } else if checks != [] && n > 0 {
      var cut := if n <= |checks| then checks[..n] else checks;
      assert !cut[0];
    }
  }

  predicate Fits(g: Geometry, o: Options, p: Placement) {
    AllTrue(Checks(g, o, p))
  }

  /**
    A placement fits iff it overflows neither on its own side (main axis) nor on either of the
    two sides across (alternative axis); which of those two counts as the main one is immaterial.
   */
  lemma FitsIffNoOverflow(g: Geometry, o: Options, p: Placement)
    requires p.base != Auto
    ensures var v := g.overflow(p);
      Fits(g, o, p) <==>
        && (o.mainAxis ==> OverflowAt(v, p.base) <= 0.0)
        && (o.altAxis ==> if p.base == Top || p.base == Bottom then v.left <= 0.0 && v.right <= 0.0
                          else v.top <= 0.0 && v.bottom <= 0.0)
  {
    var checks := Checks(g, o, p);
    if o.mainAxis && o.altAxis {
      assert |checks| == 3;
      assert AllTrue(checks) <==> checks[0] && checks[1] && checks[2];
    } else if o.altAxis {
      assert |checks| == 2;
      assert AllTrue(checks) <==> checks[0] && checks[1];
    } else if o.mainAxis {
      assert |checks| == 1;
      assert AllTrue(checks) <==> checks[0];
    }
  }

  // ---------------------------------------------------------------- the choice

  function NumberOfChecks(o: Options): nat {
    if o.flipVariations then 3 else 1
  }

  /** How good a placement is: a complete fit beats everything, else passed checks count up to the limit. */
  function Quality(g: Geometry, o: Options, p: Placement): nat {
    var checks := Checks(g, o, p);
    var n := NumberOfChecks(o);
    if AllTrue(checks) then n + 1 else if Leading(checks) <= n then Leading(checks) else n
  }

  /** `p` is the first of the best. */
  ghost predicate EarliestBest(ps: seq<Placement>, p: Placement, quality: Placement -> int) {
    exists i :: 0 <= i < |ps| && FirstBest(ps, i, quality) && ps[i] == p
  }

  ghost predicate FirstBest(ps: seq<Placement>, i: nat, quality: Placement -> int)
    requires i < |ps|
  {
    && (forall j :: 0 <= j < |ps| ==> quality(ps[j]) <= quality(ps[i]))
    && (forall j :: 0 <= j < i ==> quality(ps[j]) < quality(ps[i]))
  }

  /** The first of the best is unique, so `EarliestBest` says exactly which placement is chosen. */
  lemma EarliestBestIsUnique(ps: seq<Placement>, p: Placement, q: Placement, quality: Placement -> int)
    requires EarliestBest(ps, p, quality) && EarliestBest(ps, q, quality)
    ensures p == q
  {
    var i :| 0 <= i < |ps| && FirstBest(ps, i, quality) && ps[i] == p;
    var j :| 0 <= j < |ps| && FirstBest(ps, j, quality) && ps[j] == q;
    assert quality(ps[i]) == quality(ps[j]);
  }

  function QualityIn(g: Geometry, o: Options): Placement -> int {
    p => Quality(g, o, p)
  }

  /** The length of the run of leading passed checks. */
  function PassesIn(g: Geometry, o: Options): Placement -> int {
    p => Leading(Checks(g, o, p))
  }

  /** The first loop of `flip`: a complete fit, or the checks of all candidates. */
  method FindFit(g: Geometry, o: Options, placements: seq<Placement>)
    returns (found: bool, at: nat, checksMap: map<Placement, seq<bool>>)
    ensures found ==> at < |placements| && FirstBest(placements, at, QualityIn(g, o))
    ensures !found ==> forall p :: p in placements ==> p in checksMap && !Fits(g, o, p)
    ensures forall p :: p in checksMap ==> checksMap[p] == Checks(g, o, p)
  {
    checksMap := map[];
    at := 0;
    while at < |placements|
      invariant at <= |placements|
      invariant forall j :: 0 <= j < at ==> placements[j] in checksMap && !Fits(g, o, placements[j])
      invariant forall p :: p in checksMap ==> checksMap[p] == Checks(g, o, p)
    {
      var checks := Checks(g, o, placements[at]);
      if AllTrue(checks) {
        FullFitIsBest(g, o, placements, at);
        found := true;
        return;
      }
      checksMap := checksMap[placements[at] := checks];
      at := at + 1;
    }
    found := false;
  }

  ghost predicate NoBetter(g: Geometry, o: Options, placements: seq<Placement>, n: nat) {
    forall p :: p in placements ==> !Fits(g, o, p) && Quality(g, o, p) <= n
  }

  lemma OneLess(g: Geometry, o: Options, placements: seq<Placement>, n: nat)
    requires 0 < n <= NumberOfChecks(o) && NoBetter(g, o, placements, n)
    requires forall p :: p in placements ==> !FirstPass(Checks(g, o, p), n)
    ensures NoBetter(g, o, placements, n - 1)
  {
    forall p | p in placements ensures Quality(g, o, p) <= n - 1 {
      LeadingPass(Checks(g, o, p), n);
    }
  }

  /** The second loop: fewer and fewer leading checks; in the end the first candidate. */
  method Relax(g: Geometry, o: Options, placements: seq<Placement>, checksMap: map<Placement, seq<bool>>)
    returns (at: nat)
    requires placements != [] && forall p :: p in placements ==> p in checksMap && !Fits(g, o, p)
    requires forall p :: p in checksMap ==> checksMap[p] == Checks(g, o, p)
    ensures at < |placements| && FirstBest(placements, at, QualityIn(g, o))
  {
    var n: nat := NumberOfChecks(o);
    while n > 0
      invariant n <= NumberOfChecks(o) && NoBetter(g, o, placements, n)
    {
      var found;
      found, at := FindPassing(placements, checksMap, n);
      if found {
        RelaxedIsBest(g, o, placements, at, n);
        return;
      }
      OneLess(g, o, placements, n);
      n := n - 1;
    }
    at := 0;
  }

  /** The search of `flip`. */
  method ChoosePlacement(g: Geometry, o: Options) returns (chosen: Placement)
    requires AutoWorks(g)
    ensures EarliestBest(Candidates(g, o), chosen, QualityIn(g, o))
  {
    CandidatesNotEmpty(g, o);
    var placements := Candidates(g, o);
    var found, at, checksMap := FindFit(g, o, placements);
    if !found {
      at := Relax(g, o, placements, checksMap);
    }
    chosen := placements[at];
  }

  /** `placements.find(...)` */
  method FindPassing(placements: seq<Placement>, checksMap: map<Placement, seq<bool>>, n: nat)
    returns (found: bool, at: nat)
    requires forall p :: p in placements ==> p in checksMap
    ensures found ==> at < |placements| && FirstPass(checksMap[placements[at]], n)
                      && forall j :: 0 <= j < at ==> !FirstPass(checksMap[placements[j]], n)
    ensures !found ==> forall j :: 0 <= j < |placements| ==> !FirstPass(checksMap[placements[j]], n)
  {
    at := 0;
    while at < |placements|
      invariant at <= |placements|
      invariant forall j :: 0 <= j < at ==> !FirstPass(checksMap[placements[j]], n)
    {
      if FirstPass(checksMap[placements[at]], n) {
        found := true;
        return;
      }
      at := at + 1;
    }
    found := false;
  }

  lemma FullFitIsBest(g: Geometry, o: Options, ps: seq<Placement>, i: nat)
    requires i < |ps| && Fits(g, o, ps[i])
    requires forall j :: 0 <= j < i ==> !Fits(g, o, ps[j])
    ensures FirstBest(ps, i, QualityIn(g, o))
  {
  }

  lemma RelaxedIsBest(g: Geometry, o: Options, ps: seq<Placement>, i: nat, n: nat)
    requires i < |ps| && 0 < n <= NumberOfChecks(o)
    requires forall j :: 0 <= j < |ps| ==> !Fits(g, o, ps[j]) && Quality(g, o, ps[j]) <= n
    requires FirstPass(Checks(g, o, ps[i]), n)
    requires forall j :: 0 <= j < i ==> !FirstPass(Checks(g, o, ps[j]), n)
    ensures FirstBest(ps, i, QualityIn(g, o))
  {
    forall j | 0 <= j <= i
      ensures n <= Quality(g, o, ps[j]) <==> FirstPass(Checks(g, o, ps[j]), n)
    {
      NotFull(Checks(g, o, ps[j]));
      LeadingPass(Checks(g, o, ps[j]), n);
    }
  }

  lemma {:induction false} NotFull(checks: seq<bool>)
    ensures AllTrue(checks) <==> Leading(checks) == |checks|
  {
    LeadingPass(checks, |checks|);
    assert checks[..|checks|] == checks;
  }

  lemma QualityOrder(g: Geometry, o: Options, p: Placement, q: Placement)
    requires o.flipVariations
    ensures Quality(g, o, p) <= Quality(g, o, q) <==> Leading(Checks(g, o, p)) <= Leading(Checks(g, o, q))
  {
    NotFull(Checks(g, o, p));
    NotFull(Checks(g, o, q));
    LeadingPass(Checks(g, o, p), 0);
    LeadingPass(Checks(g, o, q), 0);
  }

  lemma SameBest(ps: seq<Placement>, i: nat, quality: Placement -> int, passes: Placement -> int)
    requires i < |ps| && FirstBest(ps, i, quality)
    requires forall p, q :: quality(p) <= quality(q) <==> passes(p) <= passes(q)
    ensures FirstBest(ps, i, passes)
  {
    forall j | 0 <= j < i ensures passes(ps[j]) < passes(ps[i]) {
      assert !(quality(ps[i]) <= quality(ps[j]));
    }
  }

  lemma SameOrder(g: Geometry, o: Options)
    requires o.flipVariations
    ensures forall p, q :: QualityIn(g, o)(p) <= QualityIn(g, o)(q) <==> PassesIn(g, o)(p) <= PassesIn(g, o)(q)
  {
    forall p, q ensures QualityIn(g, o)(p) <= QualityIn(g, o)(q) <==> PassesIn(g, o)(p) <= PassesIn(g, o)(q) {
      QualityOrder(g, o, p, q);
    }
  }

  lemma LongestRun(ps: seq<Placement>, chosen: Placement, quality: Placement -> int, passes: Placement -> int)
    requires EarliestBest(ps, chosen, quality)
    requires forall p, q :: quality(p) <= quality(q) <==> passes(p) <= passes(q)
    ensures EarliestBest(ps, chosen, passes) && chosen in ps
  {
    var i :| 0 <= i < |ps| && FirstBest(ps, i, quality) && ps[i] == chosen;
    SameBest(ps, i, quality, passes);
  }

  lemma BestQuality(ps: seq<Placement>, chosen: Placement, p: Placement, quality: Placement -> int)
    requires EarliestBest(ps, chosen, quality) && p in ps
    ensures quality(p) <= quality(chosen)
  {
    var i :| 0 <= i < |ps| && FirstBest(ps, i, quality) && ps[i] == chosen;
    var j :| 0 <= j < |ps| && ps[j] == p;
    assert quality(ps[j]) <= quality(ps[i]);
  }

  /** A complete fit beats everything else. */
  lemma FitIsBest(g: Geometry, o: Options, p: Placement, q: Placement)
    requires Fits(g, o, p) && Quality(g, o, p) <= Quality(g, o, q)
    ensures Fits(g, o, q)
  {
  }

  /**
    With flipVariations on, the choice is the earliest candidate whose run of leading passed
    checks is the longest; in particular a complete fit is preferred whenever there is one.
   */
  lemma {:induction false} LongestRunWins(g: Geometry, o: Options, chosen: Placement)
    requires o.flipVariations && EarliestBest(Candidates(g, o), chosen, QualityIn(g, o))
    ensures EarliestBest(Candidates(g, o), chosen, PassesIn(g, o))
    ensures chosen in Candidates(g, o)
    ensures (exists p :: p in Candidates(g, o) && Fits(g, o, p)) ==> Fits(g, o, chosen)
  {
    var ps := Candidates(g, o);
    SameOrder(g, o);
    LongestRun(ps, chosen, QualityIn(g, o), PassesIn(g, o));
    if p :| p in ps && Fits(g, o, p) {
      BestQuality(ps, chosen, p, QualityIn(g, o));
      FitIsBest(g, o, p, chosen);
    }
  }
}
