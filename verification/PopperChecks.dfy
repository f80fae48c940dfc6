/** What `flip` looks at: which placements are candidates, which sides are checked, and in which order. */
module PopperChecks {
  import opened Sequences
  import opened PopperFlip

  // ---------------------------------------------------------------- the sides that are checked

  predicate Vertical(p: Placement) {
    p.base == Top || p.base == Bottom
  }

  /** How far the popper sticks out on its own side. */
  function OwnSide(v: Overflow, b: Base): real
    requires b != Auto
  {
    if b == Top then v.top else if b == Bottom then v.bottom else if b == Right then v.right else v.left
  }

  /**
    On the main axis the placement's own side is checked, first of all.  Then, on the other axis, come the two
    sides across.  Where the reference is no larger than the popper, a start placement has the right or bottom
    side checked ahead of the left or top one and any other placement the other way round; a larger
    reference exchanges the two.
   */
  lemma SidesInOrder(g: Geometry, o: Options, p: Placement)
    requires p.base != Auto
    ensures var v, checks := g.overflow(p), Checks(g, o, p);
      var across := if o.mainAxis then 1 else 0;
      && |checks| == across + (if o.altAxis then 2 else 0)
      && (o.mainAxis ==> (checks[0] <==> OwnSide(v, p.base) <= 0.0))
      && (o.altAxis && Vertical(p) ==>
            if (g.reference.width <= g.popper.width) == (p.variation == Start)
            then (checks[across] <==> v.right <= 0.0) && (checks[across + 1] <==> v.left <= 0.0)
            else (checks[across] <==> v.left <= 0.0) && (checks[across + 1] <==> v.right <= 0.0))
      && (o.altAxis && !Vertical(p) ==>
            if (g.reference.height <= g.popper.height) == (p.variation == Start)
            then (checks[across] <==> v.bottom <= 0.0) && (checks[across + 1] <==> v.top <= 0.0)
            else (checks[across] <==> v.top <= 0.0) && (checks[across + 1] <==> v.bottom <= 0.0))
  {
  }

  lemma LeadingOfThree(checks: seq<bool>)
    requires |checks| == 3
    ensures Leading(checks) == if !checks[0] then 0 else if !checks[1] then 1 else if !checks[2] then 2 else 3
  {
    var rest := checks[1..];
    var last := rest[1..];
    assert last[1..] == [];
    assert Leading(last) == if last[0] then 1 else 0;
    assert Leading(rest) == if rest[0] then 1 + Leading(last) else 0;
  }

  /**
    A start and an end placement of the same side that both fit on that side, and neither across, next to a
    reference no wider than the popper: the start placement passes more checks iff it does not stick out on the
    right and the end placement does on the left.
   */
  lemma StartOrEnd(g: Geometry, o: Options, start: Placement, end: Placement)
    requires o.mainAxis && o.altAxis && g.reference.width <= g.popper.width
    requires start.variation == Start && end == start.(variation := End) && Vertical(start)
    requires var v, w := g.overflow(start), g.overflow(end);
      && OwnSide(v, start.base) <= 0.0 && OwnSide(w, start.base) <= 0.0
      && (v.left > 0.0 || v.right > 0.0) && (w.left > 0.0 || w.right > 0.0)
    ensures Leading(Checks(g, o, start)) > Leading(Checks(g, o, end))
      <==> (g.overflow(start).right <= 0.0 && g.overflow(end).left > 0.0)
  {
    SidesInOrder(g, o, start);
    SidesInOrder(g, o, end);
    LeadingOfThree(Checks(g, o, start));
    LeadingOfThree(Checks(g, o, end));
  }

  /** The run of passed checks next to a reference no wider than the popper. */
  lemma RunAtNarrow(g: Geometry, o: Options, p: Placement)
    requires o.mainAxis && o.altAxis && g.reference.width <= g.popper.width && Vertical(p)
    ensures var v := g.overflow(p);
      var second, third := if p.variation == Start then v.right else v.left,
                           if p.variation == Start then v.left else v.right;
      Leading(Checks(g, o, p)) ==
        if OwnSide(v, p.base) > 0.0 then 0 else if second > 0.0 then 1 else if third > 0.0 then 2 else 3
  {
    SidesInOrder(g, o, p);
    LeadingOfThree(Checks(g, o, p));
  }

  lemma BestOfRuns(ps: seq<Placement>, chosen: Placement, passes: Placement -> int)
    requires ps != [] && EarliestBest(ps, chosen, passes)
    requires forall k :: 0 < k < |ps| ==> passes(ps[k]) < passes(ps[0])
    ensures chosen == ps[0]
  {
    var i :| 0 <= i < |ps| && FirstBest(ps, i, passes) && ps[i] == chosen;
    assert passes(ps[0]) <= passes(ps[i]);
  }

  /** A popper 100 wide below a reference 50 wide, in a corner with no room above. */
  ghost predicate InCorner(g: Geometry) {
    && g.reference.width == 50.0 && g.popper.width == 100.0
    && g.overflow(Placement(Bottom, Start)) == Overflow(5.0, -5.0, -5.0, 10.0)
    && g.overflow(Placement(Bottom, End)) == Overflow(5.0, -5.0, -55.0, 60.0)
    && g.overflow(Placement(Top, Start)).top == 5.0 && g.overflow(Placement(Top, End)).top == 5.0
  }

  lemma RunsInCorner(g: Geometry, o: Options)
    requires o.mainAxis && o.altAxis && InCorner(g)
    ensures Leading(Checks(g, o, Placement(Bottom, Start))) == 2
    ensures Leading(Checks(g, o, Placement(Bottom, End))) == 1
    ensures Leading(Checks(g, o, Placement(Top, Start))) == 0
    ensures Leading(Checks(g, o, Placement(Top, End))) == 0
  {
    RunAtNarrow(g, o, Placement(Bottom, Start));
    RunAtNarrow(g, o, Placement(Bottom, End));
    RunAtNarrow(g, o, Placement(Top, Start));
    RunAtNarrow(g, o, Placement(Top, End));
  }

  lemma BestInCorner(g: Geometry, o: Options, ps: seq<Placement>, chosen: Placement)
    requires o.mainAxis && o.altAxis && InCorner(g) && EarliestBest(ps, chosen, PassesIn(g, o)) && |ps| == 4
    requires ps[0] == Placement(Bottom, Start) && ps[1] == Placement(Bottom, End)
    requires ps[2] == Placement(Top, Start) && ps[3] == Placement(Top, End)
    ensures chosen == Placement(Bottom, Start)
  {
    RunsInCorner(g, o);
    BestOfRuns(ps, chosen, PassesIn(g, o));
  }

  /** It is left at the start, cut off by 10, and not moved to the end, where it would be cut off by 60. */
  lemma {:induction false} StaysAtStart(g: Geometry, o: Options, chosen: Placement)
    requires o.placement == Placement(Bottom, Start) && o.fallbackPlacements == None
    requires o.mainAxis && o.altAxis && o.flipVariations && InCorner(g)
    requires EarliestBest(Candidates(g, o), chosen, QualityIn(g, o))
    ensures chosen == Placement(Bottom, Start)
  {
    LongestRunWins(g, o, chosen);
    VariedCandidates(g, o);
    BestInCorner(g, o, Candidates(g, o), chosen);
  }

  // ---------------------------------------------------------------- the candidates

  lemma {:induction false} ExpandConcat(g: Geometry, a: seq<Placement>, b: seq<Placement>)
    ensures Expand(g, a + b) == Expand(g, a) + Expand(g, b)
    decreases |a|
  {
    if a == [] {
      assert a + b == b;
    } else {
      assert (a + b)[1..] == a[1..] + b;
      ExpandConcat(g, a[1..], b);
    }
  }

  lemma {:induction false} NothingToExpand(g: Geometry, ps: seq<Placement>)
    requires forall p :: p in ps ==> p.base != Auto
    ensures Expand(g, ps) == ps
  {
    if ps != [] {
      NothingToExpand(g, ps[1..]);
      assert ps == [ps[0]] + ps[1..];
    }
  }

  predicate Across(b: Base, c: Base) {
    (b == Top && c == Bottom) || (b == Bottom && c == Top) || (b == Left && c == Right) || (b == Right && c == Left)
  }

  /** Start and end exchanged. */
  predicate OtherEnd(v: Variation, w: Variation) {
    (v == Start && w == End) || (v == End && w == Start)
  }

  /** The preferred placement comes first, and then the fallbacks given, each `auto` replaced by what is computed. */
  lemma GivenCandidates(g: Geometry, o: Options, given: seq<Placement>)
    requires o.fallbackPlacements == Some(given)
    ensures o.placement.base != Auto ==> Candidates(g, o) == [o.placement] + Expand(g, given)
    ensures o.placement.base == Auto ==> Candidates(g, o) == g.auto(o.placement) + Expand(g, given)
  {
    ExpandConcat(g, [o.placement], given);
    assert [o.placement][1..] == [];
  }

  /** A placement in the middle of its side, or any without variations to flip: itself and the side across. */
  lemma PlainCandidates(g: Geometry, o: Options)
    requires o.fallbackPlacements == None && o.placement.base != Auto
    requires o.placement.variation == Plain || !o.flipVariations
    ensures var ps := Candidates(g, o);
      && |ps| == 2 && ps[0] == o.placement
      && Across(ps[1].base, o.placement.base) && ps[1].variation == o.placement.variation
  {
    NothingToExpand(g, [o.placement] + Fallbacks(o));
  }

  /** A start or end placement: itself, the other end, and the same two on the side across. */
  lemma VariedCandidates(g: Geometry, o: Options)
    requires o.fallbackPlacements == None && o.placement.base != Auto
    requires o.placement.variation != Plain && o.flipVariations
    ensures var ps := Candidates(g, o);
      && |ps| == 4 && ps[0] == o.placement
      && ps[1].base == o.placement.base && OtherEnd(ps[1].variation, o.placement.variation)
      && Across(ps[2].base, o.placement.base) && ps[2].variation == o.placement.variation
      && ps[3] == Placement(ps[2].base, ps[1].variation)
  {
    NothingToExpand(g, [o.placement] + Fallbacks(o));
  }

  /** `auto`: what is computed for it, and a second time where it would be its own opposite. */
  lemma AutoCandidates(g: Geometry, o: Options)
    requires o.fallbackPlacements == None && o.placement.base == Auto
    ensures Candidates(g, o) ==
      if o.placement.variation == Plain || !o.flipVariations then g.auto(o.placement) + g.auto(o.placement)
      else g.auto(o.placement)
  {
    ExpandConcat(g, [o.placement], Fallbacks(o));
    assert [o.placement][1..] == [];
  }

  // ---------------------------------------------------------------- the choice without variations

  /** Whether the first check that is made, if any, is passed. */
  predicate PassesFirst(g: Geometry, o: Options, p: Placement) {
    var checks := Checks(g, o, p);
    checks == [] || checks[0]
  }

  lemma QualityWithoutVariations(g: Geometry, o: Options, p: Placement)
    requires !o.flipVariations
    ensures Quality(g, o, p) == if Fits(g, o, p) then 2 else if PassesFirst(g, o, p) then 1 else 0
  {
    NotFull(Checks(g, o, p));
  }

  ghost predicate FirstFit(g: Geometry, o: Options, ps: seq<Placement>, i: nat)
    requires i < |ps|
  {
    Fits(g, o, ps[i]) && forall j :: 0 <= j < i ==> !Fits(g, o, ps[j])
  }

  ghost predicate FirstPassing(g: Geometry, o: Options, ps: seq<Placement>, i: nat)
    requires i < |ps|
  {
    PassesFirst(g, o, ps[i]) && forall j :: 0 <= j < i ==> !PassesFirst(g, o, ps[j])
  }

  lemma FirstBestWithoutVariations(g: Geometry, o: Options, ps: seq<Placement>, i: nat)
    requires !o.flipVariations && i < |ps| && FirstBest(ps, i, QualityIn(g, o))
    ensures (exists j :: 0 <= j < |ps| && Fits(g, o, ps[j])) ==> FirstFit(g, o, ps, i)
    ensures (forall j :: 0 <= j < |ps| ==> !Fits(g, o, ps[j])) ==>
      if exists j :: 0 <= j < |ps| && PassesFirst(g, o, ps[j]) then FirstPassing(g, o, ps, i) else i == 0
  {
    forall j | 0 <= j < |ps|
      ensures QualityIn(g, o)(ps[j]) == if Fits(g, o, ps[j]) then 2 else if PassesFirst(g, o, ps[j]) then 1 else 0
    {
      QualityWithoutVariations(g, o, ps[j]);
    }
    ByRank(seq(|ps|, j requires 0 <= j < |ps| => QualityIn(g, o)(ps[j])), i);
  }

  /** The first of the greatest numbers, where there are only 0, 1 and 2. */
  lemma ByRank(q: seq<int>, i: nat)
    requires i < |q| && forall j :: 0 <= j < |q| ==> 0 <= q[j] <= 2
    requires (forall j :: 0 <= j < |q| ==> q[j] <= q[i]) && forall j :: 0 <= j < i ==> q[j] < q[i]
    ensures 2 in q ==> q[i] == 2
    ensures 2 !in q && 1 in q ==> q[i] == 1
    ensures 2 !in q && 1 !in q ==> i == 0
  {
    assert q[i] in q && q[0] in q;
  }

  /**
    With flipVariations off, the choice is the first candidate that fits; if none does, the first whose first check
    is passed; and if there is none either, the preferred one.
   */
  lemma WithoutVariations(g: Geometry, o: Options, chosen: Placement) returns (i: nat)
    requires !o.flipVariations && EarliestBest(Candidates(g, o), chosen, QualityIn(g, o))
    ensures i < |Candidates(g, o)| && Candidates(g, o)[i] == chosen
    ensures var ps := Candidates(g, o);
      && ((exists j :: 0 <= j < |ps| && Fits(g, o, ps[j])) ==> FirstFit(g, o, ps, i))
      && ((forall j :: 0 <= j < |ps| ==> !Fits(g, o, ps[j])) ==>
            if exists j :: 0 <= j < |ps| && PassesFirst(g, o, ps[j]) then FirstPassing(g, o, ps, i) else i == 0)
  {
    var ps := Candidates(g, o);
    i :| 0 <= i < |ps| && FirstBest(ps, i, QualityIn(g, o)) && ps[i] == chosen;
    FirstBestWithoutVariations(g, o, ps, i);
  }
}
