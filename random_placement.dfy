/**
 * The random placement heuristic: collect the feasible (orientation, footprint
 * origin) pairs, exhaustively on the integer grid when the bin size is
 * integer-typed and by uniform sampling otherwise, then commit one of them
 * chosen at random. Both random draws are modelled as nondeterministic choice.
 */
module RandomPlacement {
  import opened Options
  import opened Geometry
  import opened Environment

  /** Number of uniform draws per orientation in continuous mode. */
  const Samples: nat := 50

  /** A feasible placement found for the next box: rotated extents and footprint origin. */
  datatype Candidate = Candidate(dims: Dims, lx: real, ly: real)

  /**
   * The length of `range(int(v))`. Python's int() truncates toward zero and
   * Floor rounds down; the two differ only for negative v, where the range is
   * empty either way.
   */
  function RangeLength(v: real): (n: nat)
    ensures v >= 0.0 ==> n as real <= v < n as real + 1.0
    ensures v < 1.0 ==> n == 0
  {
    if v.Floor > 0 then v.Floor else 0
  }

  /** Number of footprint x origins tried: `range(int(W - next_box[0] + 1))`. */
  function XCount(nb: Dims, bin: Dims): nat { RangeLength(bin.x - nb.x + 1.0) }

  /** Number of footprint y origins tried: `range(int(L - next_box[1] + 1))`. */
  function YCount(nb: Dims, bin: Dims): nat { RangeLength(bin.y - nb.y + 1.0) }

  /** (lx, ly, rot) is a point of the exhaustive search. */
  ghost predicate InGrid(nb: Dims, bin: Dims, orients: nat, lx: int, ly: int, rot: int) {
    0 <= lx < XCount(nb, bin) && 0 <= ly < YCount(nb, bin) && 0 <= rot < orients
  }

  /** The virtual drop of orientation `rot` at grid origin (lx, ly). */
  function GridProbe<S(!new)>(env: Oracle<S>, s: S, nb: Dims, lx: int, ly: int, rot: nat): Drop {
    env.dropVirtual(s, Orient(nb, rot), lx as real, ly as real, true)
  }

  /** The (lx, ly, rot) search order: x origin, then y origin, then orientation. */
  ghost predicate Before(lx: int, ly: int, rot: int, lx0: int, ly0: int, rot0: int) {
    lx < lx0 || (lx == lx0 && (ly < ly0 || (ly == ly0 && rot < rot0)))
  }

  /** Some probe of the exhaustive search raises. */
  ghost predicate GridRaised<S(!new)>(env: Oracle<S>, s: S, nb: Dims, bin: Dims, orients: nat) {
    exists lx: int, ly: int, rot: nat :: InGrid(nb, bin, orients, lx, ly, rot) && GridProbe(env, s, nb, lx, ly, rot).DropRaised?
  }

  /** `c` is a feasible point of the exhaustive search. */
  ghost predicate GridCandidate<S(!new)>(env: Oracle<S>, s: S, nb: Dims, bin: Dims, orients: nat, c: Candidate) {
    exists lx: int, ly: int, rot: nat :: InGrid(nb, bin, orients, lx, ly, rot) && GridProbe(env, s, nb, lx, ly, rot).Feasible?
      && c == Candidate(Orient(nb, rot), lx as real, ly as real)
  }

  /**
   * The points of the search before (lx0, ly0, rot0) raised nothing, and every
   * feasible one among them is in `cands`.
   */
  ghost predicate Covered<S(!new)>(env: Oracle<S>, s: S, nb: Dims, bin: Dims, orients: nat, cands: seq<Candidate>,
                                   lx0: int, ly0: int, rot0: int) {
    forall lx: int, ly: int, rot: nat :: InGrid(nb, bin, orients, lx, ly, rot) && Before(lx, ly, rot, lx0, ly0, rot0) ==>
      && !GridProbe(env, s, nb, lx, ly, rot).DropRaised?
      && (GridProbe(env, s, nb, lx, ly, rot).Feasible? ==> Candidate(Orient(nb, rot), lx as real, ly as real) in cands)
  }

  /** One more probe, at (lx, ly, rot), extends the covered part of the search by one point. */
  lemma CoveredNext<S(!new)>(env: Oracle<S>, s: S, nb: Dims, bin: Dims, orients: nat, cands: seq<Candidate>,
                              cands': seq<Candidate>, lx: int, ly: int, rot: nat)
    requires Covered(env, s, nb, bin, orients, cands, lx, ly, rot)
    requires !GridProbe(env, s, nb, lx, ly, rot).DropRaised?
    requires forall c :: c in cands ==> c in cands'
    requires GridProbe(env, s, nb, lx, ly, rot).Feasible? ==> Candidate(Orient(nb, rot), lx as real, ly as real) in cands'
    ensures Covered(env, s, nb, bin, orients, cands', lx, ly, rot + 1)
  {
  }

  /** Having tried every orientation at (lx, ly) covers the search up to (lx, ly + 1). */
  lemma CoveredRow<S(!new)>(env: Oracle<S>, s: S, nb: Dims, bin: Dims, orients: nat, cands: seq<Candidate>, lx: int, ly: int)
    requires Covered(env, s, nb, bin, orients, cands, lx, ly, orients)
    ensures Covered(env, s, nb, bin, orients, cands, lx, ly + 1, 0)
  {
  }

  /** Having tried every y origin for x origin lx covers the search up to lx + 1. */
  lemma CoveredColumn<S(!new)>(env: Oracle<S>, s: S, nb: Dims, bin: Dims, orients: nat, cands: seq<Candidate>, lx: int)
    requires Covered(env, s, nb, bin, orients, cands, lx, YCount(nb, bin), 0)
    ensures Covered(env, s, nb, bin, orients, cands, lx + 1, 0, 0)
  {
  }

  /** Covering the search up to x origin XCount covers all of it. */
  lemma CoveredAll<S(!new)>(env: Oracle<S>, s: S, nb: Dims, bin: Dims, orients: nat, cands: seq<Candidate>)
    requires Covered(env, s, nb, bin, orients, cands, XCount(nb, bin), 0, 0)
    ensures !GridRaised(env, s, nb, bin, orients)
    ensures forall lx: int, ly: int, rot: nat ::
      InGrid(nb, bin, orients, lx, ly, rot) && GridProbe(env, s, nb, lx, ly, rot).Feasible? ==>
        Candidate(Orient(nb, rot), lx as real, ly as real) in cands
  {
    forall lx: int, ly: int, rot: nat | InGrid(nb, bin, orients, lx, ly, rot)
      ensures Before(lx, ly, rot, XCount(nb, bin), 0, 0)
    {
    }
  }

  /**
   * The probes of every orientation at grid origin (lx, ly): `raised` when one
   * raises; otherwise the feasible ones are appended and the search is covered
   * up to the next origin.
   */
  method ProbeOrigin<S(!new)>(env: Oracle<S>, s: S, nb: Dims, bin: Dims, orients: nat, lx: nat, ly: nat, cands: seq<Candidate>)
    returns (raised: bool, cands': seq<Candidate>)
    requires lx < XCount(nb, bin) && ly < YCount(nb, bin)
    requires forall c :: c in cands ==> GridCandidate(env, s, nb, bin, orients, c)
    requires Covered(env, s, nb, bin, orients, cands, lx, ly, 0)
    ensures raised ==> GridRaised(env, s, nb, bin, orients)
    ensures !raised ==> forall c :: c in cands' ==> GridCandidate(env, s, nb, bin, orients, c)
    ensures !raised ==> Covered(env, s, nb, bin, orients, cands', lx, ly + 1, 0)
  {
    cands' := cands;
    for rot := 0 to orients
      invariant forall c :: c in cands' ==> GridCandidate(env, s, nb, bin, orients, c)
      invariant Covered(env, s, nb, bin, orients, cands', lx, ly, rot)
    {
      var d := Orient(nb, rot);
      assert InGrid(nb, bin, orients, lx, ly, rot);
      var probe := env.dropVirtual(s, d, lx as real, ly as real, true);
      assert probe == GridProbe(env, s, nb, lx, ly, rot);
      if probe.DropRaised? {
        return true, cands';
      }
      var before := cands';
      if probe.Feasible? {
        cands' := cands' + [Candidate(d, lx as real, ly as real)];
      }
      CoveredNext(env, s, nb, bin, orients, before, cands', lx, ly, rot);
    }
    CoveredRow(env, s, nb, bin, orients, cands', lx, ly);
    raised := false;
  }

  /**
   * The probes of every y origin and orientation for x origin lx: `raised`
   * when one raises; otherwise the search is covered up to lx + 1.
   */
  method ProbeColumn<S(!new)>(env: Oracle<S>, s: S, nb: Dims, bin: Dims, orients: nat, lx: nat, cands: seq<Candidate>)
    returns (raised: bool, cands': seq<Candidate>)
    requires lx < XCount(nb, bin)
    requires forall c :: c in cands ==> GridCandidate(env, s, nb, bin, orients, c)
    requires Covered(env, s, nb, bin, orients, cands, lx, 0, 0)
    ensures raised ==> GridRaised(env, s, nb, bin, orients)
    ensures !raised ==> forall c :: c in cands' ==> GridCandidate(env, s, nb, bin, orients, c)
    ensures !raised ==> Covered(env, s, nb, bin, orients, cands', lx + 1, 0, 0)
  {
    cands' := cands;
    for ly := 0 to YCount(nb, bin)
      invariant forall c :: c in cands' ==> GridCandidate(env, s, nb, bin, orients, c)
      invariant Covered(env, s, nb, bin, orients, cands', lx, ly, 0)
    {
      raised, cands' := ProbeOrigin(env, s, nb, bin, orients, lx, ly, cands');
      if raised {
        return;
      }
    }
    CoveredColumn(env, s, nb, bin, orients, cands', lx);
    raised := false;
  }

  /**
   * The exhaustive search of discrete mode: None when a probe raises; otherwise
   * exactly the feasible (orientation, origin) pairs with the x origin in
   * [0, W - next_box[0]] and the y origin in [0, L - next_box[1]], both bounds
   * taken from the unrotated extents.
   */
  method GridCandidates<S(!new)>(env: Oracle<S>, s: S, nb: Dims, bin: Dims, orients: nat)
    returns (r: Option<seq<Candidate>>)
    ensures r.None? <==> GridRaised(env, s, nb, bin, orients)
    ensures r.Some? ==> forall c :: c in r.value ==> GridCandidate(env, s, nb, bin, orients, c)
    ensures r.Some? ==> forall lx: int, ly: int, rot: nat ::
      InGrid(nb, bin, orients, lx, ly, rot) && GridProbe(env, s, nb, lx, ly, rot).Feasible? ==>
        Candidate(Orient(nb, rot), lx as real, ly as real) in r.value
  {
    var cands: seq<Candidate> := [];
    for lx := 0 to XCount(nb, bin)
      invariant forall c :: c in cands ==> GridCandidate(env, s, nb, bin, orients, c)
      invariant Covered(env, s, nb, bin, orients, cands, lx, 0, 0)
    {
      var raised;
      raised, cands := ProbeColumn(env, s, nb, bin, orients, lx, cands);
      if raised {
        return None;
      }
    }
    CoveredAll(env, s, nb, bin, orients, cands);
    r := Some(cands);
  }

  /** Orientation `rot` leaves no room to sample an origin: W - x <= 0 or L - y <= 0. */
  predicate Skipped(nb: Dims, bin: Dims, rot: nat) {
    bin.x - Orient(nb, rot).x <= 0.0 || bin.y - Orient(nb, rot).y <= 0.0
  }

  /**
   * `c` is a candidate the sampling can produce: an orientation of the next box
   * that is not skipped, an origin drawn from [0, W - x) x [0, L - y), and a
   * feasible virtual drop there.
   */
  ghost predicate SampledCandidate<S(!new)>(env: Oracle<S>, s: S, nb: Dims, bin: Dims, orients: nat, c: Candidate) {
    && (exists rot: nat :: rot < orients && !Skipped(nb, bin, rot) && c.dims == Orient(nb, rot))
    && 0.0 <= c.lx < bin.x - c.dims.x
    && 0.0 <= c.ly < bin.y - c.dims.y
    && env.dropVirtual(s, c.dims, c.lx, c.ly, true).Feasible?
  }

  /** No orientation leaves room to sample an origin. */
  predicate AllSkipped(nb: Dims, bin: Dims, orients: nat) {
    forall rot: nat :: rot < orients ==> Skipped(nb, bin, rot)
  }

  /**
   * (rot, lx, ly) is a probe the sampling can make: an orientation that leaves
   * room and an origin in [0, W - x) x [0, L - y).
   */
  ghost predicate InSampleRange(nb: Dims, bin: Dims, orients: nat, rot: nat, lx: real, ly: real) {
    && rot < orients && !Skipped(nb, bin, rot)
    && 0.0 <= lx < bin.x - Orient(nb, rot).x
    && 0.0 <= ly < bin.y - Orient(nb, rot).y
  }

  /** Some probe the sampling can make raises. */
  ghost predicate SampleRaised<S(!new)>(env: Oracle<S>, s: S, nb: Dims, bin: Dims, orients: nat) {
    exists rot: nat, lx: real, ly: real ::
      InSampleRange(nb, bin, orients, rot, lx, ly) && env.dropVirtual(s, Orient(nb, rot), lx, ly, true).DropRaised?
  }

  /** Some probe the sampling can make is infeasible. */
  ghost predicate SampleInfeasible<S(!new)>(env: Oracle<S>, s: S, nb: Dims, bin: Dims, orients: nat) {
    exists rot: nat, lx: real, ly: real ::
      InSampleRange(nb, bin, orients, rot, lx, ly) && env.dropVirtual(s, Orient(nb, rot), lx, ly, true).Infeasible?
  }

  /**
   * The sampling search of continuous mode: 50 rounds over the orientations,
   * one uniform origin per orientation that leaves room. None only when a
   * probe the sampling can make raises; no candidates only when no orientation
   * leaves room or some probe was infeasible.
   */
  method SampledCandidates<S(!new)>(env: Oracle<S>, s: S, nb: Dims, bin: Dims, orients: nat)
    returns (r: Option<seq<Candidate>>)
    ensures r.None? ==> SampleRaised(env, s, nb, bin, orients)
    ensures r.Some? ==> |r.value| <= Samples * orients
    ensures r.Some? ==> forall c :: c in r.value ==> SampledCandidate(env, s, nb, bin, orients, c)
    ensures AllSkipped(nb, bin, orients) ==> r == Some([])
    ensures r == Some([]) && !AllSkipped(nb, bin, orients) ==> SampleInfeasible(env, s, nb, bin, orients)
  {
    var cands: seq<Candidate> := [];
    for sample := 0 to Samples
      invariant |cands| <= sample * orients
      invariant forall c :: c in cands ==> SampledCandidate(env, s, nb, bin, orients, c)
      invariant AllSkipped(nb, bin, orients) ==> cands == []
      invariant sample > 0 && cands == [] && !AllSkipped(nb, bin, orients) ==> SampleInfeasible(env, s, nb, bin, orients)
    {
      var round := SampleRound(env, s, nb, bin, orients, cands);
      if round.None? {
        return None;
      }
      cands := round.value;
      assert sample * orients + orients == (sample + 1) * orients;
    }
    r := Some(cands);
  }

  /**
   * One round of the sampling: one uniform origin per orientation that leaves
   * room, its feasible drops appended to `cands`. None only when a probe
   * raises; nothing appended, although an orientation leaves room, only when
   * some probe was infeasible.
   */
  method SampleRound<S(!new)>(env: Oracle<S>, s: S, nb: Dims, bin: Dims, orients: nat, cands: seq<Candidate>)
    returns (r: Option<seq<Candidate>>)
    requires forall c :: c in cands ==> SampledCandidate(env, s, nb, bin, orients, c)
    ensures r.None? ==> SampleRaised(env, s, nb, bin, orients)
    ensures r.Some? ==> |cands| <= |r.value| <= |cands| + orients && r.value[..|cands|] == cands
    ensures r.Some? ==> forall c :: c in r.value ==> SampledCandidate(env, s, nb, bin, orients, c)
    ensures AllSkipped(nb, bin, orients) ==> r == Some(cands)
    ensures r == Some(cands) && !AllSkipped(nb, bin, orients) ==> SampleInfeasible(env, s, nb, bin, orients)
  {
    var out := cands;
    ghost var fits := false;
    for rot := 0 to orients
      invariant |cands| <= |out| <= |cands| + rot && out[..|cands|] == cands
      invariant forall c :: c in out ==> SampledCandidate(env, s, nb, bin, orients, c)
      invariant !fits ==> out == cands && forall r: nat :: r < rot ==> Skipped(nb, bin, r)
      invariant fits ==> !AllSkipped(nb, bin, orients)
      invariant fits && |out| == |cands| ==> SampleInfeasible(env, s, nb, bin, orients)
    {
      var probe := SampleOrientation(env, s, nb, bin, orients, rot);
      match probe {
        case NoRoom =>
          assert Skipped(nb, bin, rot);
        case Raised =>
          return None;
        case Missed =>
          fits := true;
        case Hit(c) =>
          fits := true;
          out := out + [c];
      }
    }
    r := Some(out);
  }

  /** What one sampled probe came to. */
  datatype SampleProbe = NoRoom | Raised | Missed | Hit(c: Candidate)

  /**
   * The sampled probe of orientation `rot`: no room when the orientation is
   * skipped, otherwise the virtual drop at one uniform origin.
   */
  method SampleOrientation<S(!new)>(env: Oracle<S>, s: S, nb: Dims, bin: Dims, orients: nat, rot: nat)
    returns (p: SampleProbe)
    requires rot < orients
    ensures p.NoRoom? <==> Skipped(nb, bin, rot)
    ensures p.Raised? ==> SampleRaised(env, s, nb, bin, orients)
    ensures p.Missed? ==> SampleInfeasible(env, s, nb, bin, orients)
    ensures p.Hit? ==> SampledCandidate(env, s, nb, bin, orients, p.c)
  {
    var d := Orient(nb, rot);
    var maxLx := if bin.x - d.x > 0.0 then bin.x - d.x else 0.0;
    var maxLy := if bin.y - d.y > 0.0 then bin.y - d.y else 0.0;
    if maxLx <= 0.0 || maxLy <= 0.0 {
      return NoRoom;
    }
    var lx: real :| 0.0 <= lx < maxLx;
    var ly: real :| 0.0 <= ly < maxLy;
    assert InSampleRange(nb, bin, orients, rot, lx, ly);
    match env.dropVirtual(s, d, lx, ly, true) {
      case DropRaised =>
        p := Raised;
      case Infeasible =>
        p := Missed;
      case Feasible(_) =>
        p := Hit(Candidate(d, lx, ly));
    }
  }

  /**
   * A candidate of the search selected by the bin size `bin` read after the
   * reset: exhaustive when `binIsInt`, sampled otherwise.
   */
  ghost predicate Eligible<S(!new)>(env: Oracle<S>, s: S, bin: Dims, binIsInt: bool, c: Candidate) {
    if binIsInt then GridCandidate(env, s, env.nextBox(s), bin, env.orientations(s), c)
    else SampledCandidate(env, s, env.nextBox(s), bin, env.orientations(s), c)
  }

  /**
   * What one box's turn under the random heuristic may come to in state `s`: a
   * fault, no placement, or the step's answer for an eligible candidate. On the
   * integer grid the search is exhaustive, so a fault happens exactly when a
   * probe raises and no placement exactly when no grid point is feasible. In
   * continuous mode there is no placement whenever no orientation leaves room,
   * and otherwise only after an infeasible probe; a fault that is not the
   * step's own answer needs a probe that raised.
   */
  ghost predicate RandomOutcome<S(!new)>(env: Oracle<S>, s: S, bin: Dims, binIsInt: bool, out: Attempt<S>) {
    var nb, k := env.nextBox(s), env.orientations(s);
    && (out == Faulted(s) || out.NoPlacement? ||
          exists c :: Eligible(env, s, bin, binIsInt, c) && out == FromStep(env.step(s, c.dims, c.lx, c.ly)))
    && (binIsInt ==>
          && (GridRaised(env, s, nb, bin, k) ==> out == Faulted(s))
          && (!GridRaised(env, s, nb, bin, k) ==>
                && (out.NoPlacement? <==>
                      forall lx: int, ly: int, rot: nat :: InGrid(nb, bin, k, lx, ly, rot) ==> !GridProbe(env, s, nb, lx, ly, rot).Feasible?)
                && (!out.NoPlacement? ==>
                      exists c :: Eligible(env, s, bin, binIsInt, c) && out == FromStep(env.step(s, c.dims, c.lx, c.ly)))))
    && (!binIsInt ==>
          && (AllSkipped(nb, bin, k) ==> out.NoPlacement?)
          && (out.NoPlacement? ==> AllSkipped(nb, bin, k) || SampleInfeasible(env, s, nb, bin, k))
          && (out == Faulted(s) ==>
                || SampleRaised(env, s, nb, bin, k)
                || exists c :: Eligible(env, s, bin, binIsInt, c) && out == FromStep(env.step(s, c.dims, c.lx, c.ly))))
  }

  /**
   * One box's turn under the random heuristic: search candidates (exhaustively
   * when every entry of the bin size is an int, by sampling otherwise), stop
   * with no placement when there are none, else commit one chosen uniformly.
   */
  method AttemptRandom<S(!new)>(env: Oracle<S>, s: S, bin: Dims, binIsInt: bool) returns (out: Attempt<S>)
    ensures RandomOutcome(env, s, bin, binIsInt, out)
  {
    var nb, k := env.nextBox(s), env.orientations(s);
    var found: Option<seq<Candidate>>;
    if binIsInt {
      found := GridCandidates(env, s, nb, bin, k);
    } else {
      found := SampledCandidates(env, s, nb, bin, k);
    }
    if found.None? {
      out := Faulted(s);
      return;
    }
    var cands := found.value;
    if |cands| == 0 {
      out := NoPlacement;
      return;
    }
    var idx: nat :| idx < |cands|;
    var c := cands[idx];
    assert c in cands;
    assert Eligible(env, s, bin, binIsInt, c);
    out := FromStep(env.step(s, c.dims, c.lx, c.ly));
  }
}
