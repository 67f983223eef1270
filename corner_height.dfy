/**
 * The corner-height heuristic: probe every corner region the environment
 * lists, score the feasible ones by `xs + ys + 10 * sum(height map)`, and keep
 * the lowest score, the first one on ties, below the starting bound 1e10.
 */
module CornerHeight {
  import opened Options
  import opened Geometry
  import opened Environment

  /** The initial best score; a candidate must score strictly below it to be chosen. */
  const Bound: real := 10000000000.0

  /** The total of a (flattened) height map. */
  function Sum(hm: seq<real>): real {
    if hm == [] then 0.0 else Sum(hm[..|hm| - 1]) + hm[|hm| - 1]
  }

  /** The box extents tried at a corner: the extents of its free region. */
  function CornerDims(c: Corner): Dims {
    Dims(c.xe - c.xs, c.ye - c.ys, c.ze - c.zs)
  }

  /** The virtual drop of the corner's region at the corner's footprint origin. */
  function Probe<S(!new)>(env: Oracle<S>, s: S, c: Corner, extended: bool): Drop {
    env.dropVirtual(s, CornerDims(c), c.xs, c.ys, extended)
  }

  /** The score of a feasible corner: its offset plus ten times the projected stack height. */
  function Score(c: Corner, hm: seq<real>): real {
    c.xs + c.ys + 10.0 * Sum(hm)
  }

  /** The score of corner `c`, or None when it is not feasible. */
  function ScoreOf<S(!new)>(env: Oracle<S>, s: S, c: Corner, extended: bool): Option<real> {
    match Probe(env, s, c, extended)
    case Feasible(hm) => Some(Score(c, hm))
    case _ => None
  }

  /** Some corner's probe raised an exception. */
  ghost predicate AnyRaised<S(!new)>(env: Oracle<S>, s: S, cs: seq<Corner>, extended: bool) {
    exists j :: 0 <= j < |cs| && Probe(env, s, cs[j], extended).DropRaised?
  }

  /**
   * Corner `k` is the one the heuristic keeps: feasible, below the bound, no
   * feasible corner scores lower, and every earlier feasible corner scores
   * strictly higher (the first minimum wins).
   */
  ghost predicate IsBest<S(!new)>(env: Oracle<S>, s: S, cs: seq<Corner>, extended: bool, k: nat) {
    && k < |cs|
    && ScoreOf(env, s, cs[k], extended).Some?
    && ScoreOf(env, s, cs[k], extended).value < Bound
    && (forall j :: 0 <= j < |cs| && ScoreOf(env, s, cs[j], extended).Some? ==>
          ScoreOf(env, s, cs[k], extended).value <= ScoreOf(env, s, cs[j], extended).value)
    && (forall j :: 0 <= j < k && ScoreOf(env, s, cs[j], extended).Some? ==>
          ScoreOf(env, s, cs[k], extended).value < ScoreOf(env, s, cs[j], extended).value)
  }

  /** No corner is feasible with a score below the bound. */
  ghost predicate NoneBelowBound<S(!new)>(env: Oracle<S>, s: S, cs: seq<Corner>, extended: bool) {
    forall j :: 0 <= j < |cs| && ScoreOf(env, s, cs[j], extended).Some? ==>
      ScoreOf(env, s, cs[j], extended).value >= Bound
  }

  /** Outcome of the search over corners. */
  datatype Selection = Chosen(index: nat) | NoneChosen | Raised

  /** The selection rule picks at most one corner: two corners that both satisfy it are the same. */
  lemma BestIsUnique<S(!new)>(env: Oracle<S>, s: S, cs: seq<Corner>, extended: bool, k1: nat, k2: nat)
    requires IsBest(env, s, cs, extended, k1) && IsBest(env, s, cs, extended, k2)
    ensures k1 == k2
  {
  }

  /**
   * The search loop over the corner list: stops at the first probe that raises,
   * otherwise ends with the first lowest-scoring feasible corner below the bound,
   * or with none.
   */
  method SelectCorner<S(!new)>(env: Oracle<S>, s: S, cs: seq<Corner>, extended: bool) returns (sel: Selection)
    ensures sel.Raised? <==> AnyRaised(env, s, cs, extended)
    ensures sel.Chosen? ==> IsBest(env, s, cs, extended, sel.index)
    ensures sel.NoneChosen? ==> NoneBelowBound(env, s, cs, extended)
  {
    var bestScore := Bound;
    var best: Option<nat> := None;
    for i := 0 to |cs|
      invariant forall j :: 0 <= j < i ==> !Probe(env, s, cs[j], extended).DropRaised?
      invariant best.None? ==> bestScore == Bound
      invariant best.Some? ==> best.value < i && ScoreOf(env, s, cs[best.value], extended) == Some(bestScore)
      invariant bestScore <= Bound
      invariant best.Some? ==> bestScore < Bound
      invariant forall j :: 0 <= j < i && ScoreOf(env, s, cs[j], extended).Some? ==>
        bestScore <= ScoreOf(env, s, cs[j], extended).value
      invariant best.Some? ==> forall j :: 0 <= j < best.value && ScoreOf(env, s, cs[j], extended).Some? ==>
        bestScore < ScoreOf(env, s, cs[j], extended).value
    {
      var c := cs[i];
      match env.dropVirtual(s, CornerDims(c), c.xs, c.ys, extended) {
        case DropRaised =>
          assert Probe(env, s, cs[i], extended).DropRaised?;
          return Raised;
        case Infeasible =>
        case Feasible(hm) =>
          var score := c.xs + c.ys + 10.0 * Sum(hm);
          if score < bestScore {
            bestScore := score;
            best := Some(i);
          }
      }
    }
    if best.Some? {
      sel := Chosen(best.value);
    } else {
      sel := NoneChosen;
    }
  }

  /**
   * What one box's turn under the corner-height heuristic may come to in state
   * `s`: a fault when the corner list or a probe raises, no placement when no
   * corner scores below the bound, and otherwise the step's answer for the
   * selected corner's region committed at (xs, ys).
   */
  ghost predicate CornerHeightOutcome<S(!new)>(env: Oracle<S>, s: S, extended: bool, out: Attempt<S>) {
    match env.corners(s)
    case None => out == Faulted(s)
    case Some(cs) =>
      && (AnyRaised(env, s, cs, extended) ==> out == Faulted(s))
      && (out.NoPlacement? <==> !AnyRaised(env, s, cs, extended) && NoneBelowBound(env, s, cs, extended))
      && (!AnyRaised(env, s, cs, extended) && !out.NoPlacement? ==>
            exists k: nat :: IsBest(env, s, cs, extended, k) &&
              out == FromStep(env.step(s, CornerDims(cs[k]), cs[k].xs, cs[k].ys)))
  }

  /** The heuristic is deterministic: a state admits one outcome only. */
  lemma {:induction false} CornerHeightDeterministic<S(!new)>(env: Oracle<S>, s: S, extended: bool, o1: Attempt<S>, o2: Attempt<S>)
    requires CornerHeightOutcome(env, s, extended, o1) && CornerHeightOutcome(env, s, extended, o2)
    ensures o1 == o2
  {
    if env.corners(s).Some? {
      var cs := env.corners(s).value;
      if !AnyRaised(env, s, cs, extended) && !o1.NoPlacement? {
        var k1: nat :| IsBest(env, s, cs, extended, k1) && o1 == FromStep(env.step(s, CornerDims(cs[k1]), cs[k1].xs, cs[k1].ys));
        var k2: nat :| IsBest(env, s, cs, extended, k2) && o2 == FromStep(env.step(s, CornerDims(cs[k2]), cs[k2].xs, cs[k2].ys));
        BestIsUnique(env, s, cs, extended, k1, k2);
      }
    }
  }

  /**
   * One box's turn under the corner-height heuristic: list the corners, select
   * one, and commit the selected corner's region at (xs, ys).
   */
  method AttemptCornerHeight<S(!new)>(env: Oracle<S>, s: S, extended: bool) returns (out: Attempt<S>)
    ensures CornerHeightOutcome(env, s, extended, out)
  {
    match env.corners(s) {
      case None =>
        out := Faulted(s);
      case Some(cs) =>
      var sel := SelectCorner(env, s, cs, extended);
      match sel {
        case Raised =>
          out := Faulted(s);
        case NoneChosen =>
          out := NoPlacement;
        case Chosen(k) =>
          var c := cs[k];
          out := FromStep(env.step(s, CornerDims(c), c.xs, c.ys));
      }
    }
  }
}
