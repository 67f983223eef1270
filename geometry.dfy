/**
 * Box extents, points, the axis permutations the random placement heuristic
 * tries, and the centre of an axis-aligned box (the translation the renderers
 * give a box mesh).
 */
module Geometry {

  /** Extents of a box along the pallet's width (x), length (y) and height (z). */
  datatype Dims = Dims(x: real, y: real, z: real)

  /** A point in pallet coordinates: a box's lower corner or its centre. */
  datatype Point = Point(x: real, y: real, z: real)

  /** The extents of a box as a multiset: what every orientation preserves. */
  function Extents(d: Dims): multiset<real> {
    multiset{d.x, d.y, d.z}
  }

  /**
   * The extents assigned for rotation `rot` of `nb` by the if/elif chain of the
   * random heuristic. Each branch is a destructuring assignment, so
   * `y, x, z = nb` sets y to nb.x and x to nb.y. A rotation index of 6 or more
   * matches no branch and leaves the values of the previous iteration of the
   * rotation loop, which is always index 5.
   */
  function Orient(nb: Dims, rot: nat): (r: Dims)
    ensures rot == 0 ==> r == nb
  {
    if rot == 0 then nb                          // x, y, z = nb
    else if rot == 1 then Dims(nb.y, nb.x, nb.z) // y, x, z = nb
    else if rot == 2 then Dims(nb.y, nb.z, nb.x) // z, x, y = nb
    else if rot == 3 then Dims(nb.z, nb.y, nb.x) // z, y, x = nb
    else if rot == 4 then Dims(nb.x, nb.z, nb.y) // x, z, y = nb
    else Dims(nb.z, nb.x, nb.y)                  // y, z, x = nb (and every rot >= 5)
  }

  /** The six rotation indices give six different boxes when the extents differ pairwise. */
  lemma OrientationsDistinct(nb: Dims, r1: nat, r2: nat)
    requires nb.x != nb.y && nb.y != nb.z && nb.x != nb.z
    requires r1 < r2 < 6
    ensures Orient(nb, r1) != Orient(nb, r2)
  {
  }

  /** How often `v` occurs among the extents of `d`. */
  function Occurrences(d: Dims, v: real): nat {
    (if d.x == v then 1 else 0) + (if d.y == v then 1 else 0) + (if d.z == v then 1 else 0)
  }

  lemma ExtentsCount(d: Dims, v: real)
    ensures Extents(d)[v] == Occurrences(d, v)
  {
  }

  /** Every rotation is a rearrangement of the box's extents. */
  lemma {:induction false} OrientExtents(nb: Dims, rot: nat)
    ensures Extents(Orient(nb, rot)) == Extents(nb)
  {
    var a, b, c := nb.x, nb.y, nb.z;
    if rot == 1 {
      SwapFirst(a, b, c);
    } else if rot == 2 {
      RotateLeft(a, b, c);
    } else if rot == 3 {
      SwapOuter(a, b, c);
    } else if rot == 4 {
      SwapLast(a, b, c);
    } else if rot >= 5 {
      RotateLeft(c, a, b);
    }
  }

  lemma SwapFirst(a: real, b: real, c: real)
    ensures multiset{b, a, c} == multiset{a, b, c}
  {
  }

  lemma SwapLast(a: real, b: real, c: real)
    ensures multiset{a, c, b} == multiset{a, b, c}
  {
  }

  lemma SwapOuter(a: real, b: real, c: real)
    ensures multiset{c, b, a} == multiset{a, b, c}
  {
  }

  lemma RotateLeft(a: real, b: real, c: real)
    ensures multiset{b, c, a} == multiset{a, b, c}
  {
  }

  /** Every rearrangement of a box's extents is produced by one of the rotation indices 0..5. */
  lemma {:induction false} OrientationsComplete(nb: Dims, e: Dims)
    requires Extents(e) == Extents(nb)
    ensures exists rot :: 0 <= rot < 6 && Orient(nb, rot) == e
  {
    var rot := OrientationOf(nb, e);
    assert Orient(nb, rot) == e;
  }

  /** The rotation index that turns `nb` into the rearrangement `e` of its extents. */
  lemma {:induction false} OrientationOf(nb: Dims, e: Dims) returns (rot: nat)
    requires Extents(e) == Extents(nb)
    ensures rot < 6 && Orient(nb, rot) == e
  {
    ExtentsCount(e, e.x); ExtentsCount(nb, e.x);
    ExtentsCount(e, e.y); ExtentsCount(nb, e.y);
    ExtentsCount(e, e.z); ExtentsCount(nb, e.z);
    ExtentsCount(e, nb.x); ExtentsCount(nb, nb.x);
    ExtentsCount(e, nb.y); ExtentsCount(nb, nb.y);
    rot := RotationFromCounts(nb, e);
  }

  /** The case analysis behind OrientationOf, on occurrence counts only. */
  lemma {:induction false} RotationFromCounts(nb: Dims, e: Dims) returns (rot: nat)
    requires Occurrences(e, e.x) == Occurrences(nb, e.x) && Occurrences(e, e.y) == Occurrences(nb, e.y)
    requires Occurrences(e, e.z) == Occurrences(nb, e.z)
    requires Occurrences(e, nb.x) == Occurrences(nb, nb.x) && Occurrences(e, nb.y) == Occurrences(nb, nb.y)
    ensures rot < 6 && Orient(nb, rot) == e
  {
    if e == nb { rot := 0; }
    else if e == Dims(nb.y, nb.x, nb.z) { rot := 1; }
    else if e == Dims(nb.y, nb.z, nb.x) { rot := 2; }
    else if e == Dims(nb.z, nb.y, nb.x) { rot := 3; }
    else if e == Dims(nb.x, nb.z, nb.y) { rot := 4; }
    else { rot := 5; }
  }

  /** The centre of the box with lower corner `pos` and extents `size`: equally far from opposite faces on every axis. */
  function Centre(size: Dims, pos: Point): (c: Point)
    ensures c.x - pos.x == (pos.x + size.x) - c.x
    ensures c.y - pos.y == (pos.y + size.y) - c.y
    ensures c.z - pos.z == (pos.z + size.z) - c.z
  {
    Point(pos.x + size.x / 2.0, pos.y + size.y / 2.0, pos.z + size.z / 2.0)
  }

  /** For non-negative extents the centre lies inside the box, midway between its faces. */
  lemma CentreInside(size: Dims, pos: Point)
    requires size.x >= 0.0 && size.y >= 0.0 && size.z >= 0.0
    ensures var c := Centre(size, pos);
      && pos.x <= c.x <= pos.x + size.x && c.x - pos.x == pos.x + size.x - c.x
      && pos.y <= c.y <= pos.y + size.y && c.y - pos.y == pos.y + size.y - c.y
      && pos.z <= c.z <= pos.z + size.z && c.z - pos.z == pos.z + size.z - c.z
  {
  }
}
