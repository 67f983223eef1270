/**
 * The packing environment as the engine sees it. The environment classes
 * (PackingDiscrete, PackingContinuous) own the height map, the corner
 * generator, the virtual drop and the committing step; their code is not part
 * of this model. They are represented by `Oracle<S>`, a record of the
 * operations the engine calls, over an opaque environment state `S`. The only
 * property assumed of them is that the reported utilization lies in [0, 1].
 */
module Environment {
  import opened Options
  import opened Geometry

  /**
   * A corner region (xs, ys, zs, xe, ye, ze) listed by the environment's corner
   * generator: the free axis-aligned region anchored at (xs, ys, zs).
   */
  datatype Corner = Corner(xs: real, ys: real, zs: real, xe: real, ye: real, ze: real)

  /** The last box of the environment's placed-box list: lower corner and extents. */
  datatype PlacedBox = PlacedBox(lx: real, ly: real, lz: real, x: real, y: real, z: real)

  /**
   * Answer of the virtual drop: infeasible, feasible with the projected height
   * map (flattened), or an exception raised while probing.
   */
  datatype Drop = Infeasible | Feasible(heightMap: seq<real>) | DropRaised

  /**
   * Answer of the committing step: the box was placed (and is the last entry of
   * the placed-box list), the step reported failure, or an exception was raised
   * (including the read of the placed-box list). Each carries the new state.
   */
  datatype StepResult<S> = Accepted(after: S, placed: PlacedBox) | Refused(after: S) | StepRaised(after: S)

  /**
   * The environment operations the engine uses.
   * - create(discrete, rotation setting, container size, item set): a new
   *   environment, or None when its constructor raises;
   * - reset: the environment after `env.reset()`;
   * - nextBox, orientations, binSize, binIsInt: the attributes next_box,
   *   orientation, bin_size and whether every entry of bin_size is a Python int;
   * - corners: `corner_positions()`, None when it raises;
   * - dropVirtual(state, extents, lx, ly, extended): `space.drop_box_virtual`;
   *   `extended` tells whether the call passes the two trailing flags
   *   (False, True) that three of the four call sites pass;
   * - step(state, extents, lx, ly): set next_box to the extents, then
   *   `step([0, lx, ly])`;
   * - ratio: `space.get_ratio()`.
   */
  datatype Oracle<!S(!new)> = Oracle(
    create: (bool, int, Dims, seq<Dims>) -> Option<S>,
    reset: S -> S,
    nextBox: S -> Dims,
    orientations: S -> nat,
    binSize: S -> Dims,
    binIsInt: S -> bool,
    corners: S -> Option<seq<Corner>>,
    dropVirtual: (S, Dims, real, real, bool) -> Drop,
    step: (S, Dims, real, real) -> StepResult<S>,
    ratio: S -> real
  )
  {
    /** The one contract assumed of the environment: utilization is a ratio in [0, 1]. */
    ghost predicate RatioBounded() {
      forall s :: 0.0 <= ratio(s) <= 1.0
    }
  }

  /**
   * What one box's turn in the packing loop comes to: placed, refused by the
   * step, no feasible candidate at all (which ends the search), or an exception
   * caught by the loop.
   */
  datatype Attempt<S> = Packed(after: S, placed: PlacedBox) | NotPlaced(after: S) | NoPlacement | Faulted(after: S)

  /** The loop's reading of a step answer. */
  function FromStep<S>(r: StepResult<S>): (a: Attempt<S>)
    ensures r.Accepted? <==> a.Packed?
    ensures a.Packed? ==> a.placed == r.placed
    ensures !a.NoPlacement? && a.after == r.after
  {
    match r
    case Accepted(s, p) => Packed(s, p)
    case Refused(s) => NotPlaced(s)
    case StepRaised(s) => Faulted(s)
  }
}
