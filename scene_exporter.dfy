/**
 * Construction of the Three.js scene description for a packing session: a
 * wireframe container, then one box geometry, one material and one mesh
 * object per placed box, taken from the environment when it exposes its
 * boxes and from the stored session rows otherwise.
 */
module SceneExporter {
  import opened Options
  import opened Geometry
  import opened BoxRecords

  // ---------------------------------------------------------------------
  // Identifiers
  // ---------------------------------------------------------------------

  function Digit(d: nat): (c: char)
    requires d < 10
    ensures '0' <= c <= '9' && c as int - '0' as int == d
  {
    ('0' as int + d) as char
  }

  /** Decimal rendering of a natural number, as an f-string writes it. */
  function NatToString(n: nat): (s: string)
    ensures |s| >= 1
    ensures |s| == 1 <==> n < 10
    ensures forall i :: 0 <= i < |s| ==> '0' <= s[i] <= '9'
    decreases n
  {
    if n < 10 then [Digit(n)] else NatToString(n / 10) + [Digit(n % 10)]
  }

  /** Distinct numbers are written differently. */
  lemma {:induction false} NatToStringInjective(a: nat, b: nat)
    requires NatToString(a) == NatToString(b)
    ensures a == b
    decreases a
  {
    var sa, sb := NatToString(a), NatToString(b);
    if a < 10 {
      assert |sb| == 1 && b < 10;
      assert sa[0] == Digit(a) && sb[0] == Digit(b);
    } else {
      assert b >= 10;
      assert sa == NatToString(a / 10) + [Digit(a % 10)];
      assert sb == NatToString(b / 10) + [Digit(b % 10)];
      assert sa[..|sa| - 1] == NatToString(a / 10) && sb[..|sb| - 1] == NatToString(b / 10);
      assert Digit(a % 10) == sa[|sa| - 1] == sb[|sb| - 1] == Digit(b % 10);
      NatToStringInjective(a / 10, b / 10);
    }
  }

  /** An identifier made of a fixed prefix and an index suffix. */
  function IndexedId(prefix: string, index: nat): string {
    prefix + NatToString(index)
  }

  /** Identifiers with the same prefix and different indices differ. */
  lemma {:induction false} IndexedIdsDistinct(prefix: string, i: nat, j: nat)
    requires i != j
    ensures IndexedId(prefix, i) != IndexedId(prefix, j)
  {
    if IndexedId(prefix, i) == IndexedId(prefix, j) {
      assert IndexedId(prefix, i)[|prefix|..] == NatToString(i);
      assert IndexedId(prefix, j)[|prefix|..] == NatToString(j);
      NatToStringInjective(i, j);
    }
  }

  // ---------------------------------------------------------------------
  // Colours
  // ---------------------------------------------------------------------

  const ColorMultiplier: nat := 2654435761

  /** The seed the colour generator is reseeded with for a box index: a valid 32-bit seed. */
  function ColorSeed(index: nat): (seed: nat)
    ensures seed < 0x1_0000_0000
  {
    index * ColorMultiplier % 0x1_0000_0000
  }

  /** `(r << 16) | (g << 8) | b`. */
  function PackColor(r: bv8, g: bv8, b: bv8): (c: bv32)
    ensures c < 0x100_0000
  {
    ((r as bv32) << 16) | ((g as bv32) << 8) | (b as bv32)
  }

  /**
   * The packed colour is r * 65536 + g * 256 + b, and shifting and masking
   * recovers each channel.
   */
  lemma ColorChannels(r: bv8, g: bv8, b: bv8)
    ensures PackColor(r, g, b) == (r as bv32) * 0x1_0000 + (g as bv32) * 0x100 + (b as bv32)
    ensures (PackColor(r, g, b) >> 16) & 0xFF == r as bv32
    ensures (PackColor(r, g, b) >> 8) & 0xFF == g as bv32
    ensures PackColor(r, g, b) & 0xFF == b as bv32
  {
    ChannelsRecovered(r, g, b);
  }

  /** Shifting and masking the packed colour recovers each channel. */
  lemma ChannelsRecovered(r: bv8, g: bv8, b: bv8)
    ensures (PackColor(r, g, b) >> 16) & 0xFF == r as bv32
    ensures (PackColor(r, g, b) >> 8) & 0xFF == g as bv32
    ensures PackColor(r, g, b) & 0xFF == b as bv32
  {
  }

  /** The colour of box `index`: the same index always gets the same colour. */
  function ColorOf(draw: nat -> (bv8, bv8, bv8), index: nat): (c: bv32)
    ensures c < 0x100_0000
    ensures (c >> 16) & 0xFF == draw(ColorSeed(index)).0 as bv32
    ensures (c >> 8) & 0xFF == draw(ColorSeed(index)).1 as bv32
    ensures c & 0xFF == draw(ColorSeed(index)).2 as bv32
  {
    var rgb := draw(ColorSeed(index));
    ChannelsRecovered(rgb.0, rgb.1, rgb.2);
    PackColor(rgb.0, rgb.1, rgb.2)
  }

  // ---------------------------------------------------------------------
  // Scene entries
  // ---------------------------------------------------------------------

  datatype GeometryData =
    | Wireframe(vertices: seq<Point>, edges: seq<(nat, nat)>)
    | BoxShape(width: real, height: real, depth: real, widthSegments: nat, heightSegments: nat, depthSegments: nat)

  datatype GeometryEntry = GeometryEntry(uuid: string, kind: string, data: GeometryData)

  datatype MaterialEntry =
    | LineMaterial(uuid: string, color: bv32, linewidth: nat)
    | PhongMaterial(uuid: string, color: bv32, transparent: bool, opacity: real, side: nat)

  datatype SceneObject = SceneObject(uuid: string, kind: string, name: string, geometry: string, material: string, matrix: seq<real>)

  /** Environment axes (x, y, z) become the Three.js box's width, height and depth. */
  function CreateBoxGeometry(width: real, length: real, height: real): (g: GeometryData)
    ensures g.BoxShape? && g.width == width && g.height == length && g.depth == height
    ensures g.widthSegments == g.heightSegments == g.depthSegments == 1
  {
    BoxShape(width, length, height, 1, 1, 1)
  }

  /** The container's eight corners and twelve edges. */
  function CreateWireframe(width: real, length: real, height: real): (g: GeometryData)
    ensures g.Wireframe? && |g.vertices| == 8 && |g.edges| == 12
    ensures forall e :: e in g.edges ==> e.0 < 8 && e.1 < 8 && e.0 != e.1
  {
    Wireframe(
      [Point(0.0, 0.0, 0.0), Point(width, 0.0, 0.0), Point(width, length, 0.0), Point(0.0, length, 0.0),
       Point(0.0, 0.0, height), Point(width, 0.0, height), Point(width, length, height), Point(0.0, length, height)],
      [(0, 1), (1, 2), (2, 3), (3, 0),
       (4, 5), (5, 6), (6, 7), (7, 4),
       (0, 4), (1, 5), (2, 6), (3, 7)])
  }

  /** The two points differ in exactly one coordinate. */
  predicate AxisParallel(p: Point, q: Point) {
    (if p.x != q.x then 1 else 0) + (if p.y != q.y then 1 else 0) + (if p.z != q.z then 1 else 0) == 1
  }

  /** A corner of the box [0, w] x [0, l] x [0, h]. */
  predicate CornerOf(p: Point, w: real, l: real, h: real) {
    (p.x == 0.0 || p.x == w) && (p.y == 0.0 || p.y == l) && (p.z == 0.0 || p.z == h)
  }

  /**
   * The wireframe has 8 vertices, the corners of the container, with the
   * bottom four at height 0 and the top four at the container's height, and
   * 12 edges between vertex indices 0..7; for a container of non-zero
   * extents the vertices are distinct and every edge runs along one axis.
   */
  lemma WireframeShape(w: real, l: real, h: real)
    ensures CreateWireframe(w, l, h).Wireframe?
    ensures |CreateWireframe(w, l, h).vertices| == 8 && |CreateWireframe(w, l, h).edges| == 12
    ensures forall k :: 0 <= k < 12 ==> CreateWireframe(w, l, h).edges[k].0 < 8 && CreateWireframe(w, l, h).edges[k].1 < 8
    ensures forall i :: 0 <= i < 4 ==> CreateWireframe(w, l, h).vertices[i].z == 0.0
    ensures forall i :: 4 <= i < 8 ==> CreateWireframe(w, l, h).vertices[i].z == h
    ensures forall i :: 0 <= i < 8 ==> CornerOf(CreateWireframe(w, l, h).vertices[i], w, l, h)
    ensures w != 0.0 && l != 0.0 && h != 0.0 ==>
      forall i, j :: 0 <= i < j < 8 ==> CreateWireframe(w, l, h).vertices[i] != CreateWireframe(w, l, h).vertices[j]
    ensures w != 0.0 && l != 0.0 && h != 0.0 ==>
      forall k :: 0 <= k < 12 ==>
        AxisParallel(CreateWireframe(w, l, h).vertices[CreateWireframe(w, l, h).edges[k].0],
                     CreateWireframe(w, l, h).vertices[CreateWireframe(w, l, h).edges[k].1])
  {
  }

  /** The column-major 4x4 identity. */
  const Identity: seq<real> := [1.0, 0.0, 0.0, 0.0, 0.0, 1.0, 0.0, 0.0, 0.0, 0.0, 1.0, 0.0, 0.0, 0.0, 0.0, 1.0]

  /** A column-major translation: the identity with the offset in slots 12-14. */
  function TranslationMatrix(t: Point): (m: seq<real>)
    ensures |m| == 16 && m[12] == t.x && m[13] == t.y && m[14] == t.z
    ensures forall i :: 0 <= i < 16 && (i < 12 || i == 15) ==> m[i] == Identity[i]
  {
    Identity[..12] + [t.x, t.y, t.z] + Identity[15..]
  }

  /** The container: geometry, material and object, at the origin. */
  function ContainerGeometry(pallet: Dims): GeometryEntry {
    GeometryEntry("container_geometry", "EdgesGeometry", CreateWireframe(pallet.x, pallet.y, pallet.z))
  }

  const ContainerMaterial: MaterialEntry := LineMaterial("container_material", 0x666666, 2)

  const ContainerObject: SceneObject :=
    SceneObject("container_object", "LineSegments", "Container", "container_geometry", "container_material", Identity)

  /** The entries of box `index` with extents `size` and lower corner `pos`. */
  function BoxGeometryEntry(size: Dims, index: nat): GeometryEntry {
    GeometryEntry(IndexedId("box_geometry_", index), "BoxGeometry", CreateBoxGeometry(size.x, size.y, size.z))
  }

  function BoxMaterial(draw: nat -> (bv8, bv8, bv8), index: nat): MaterialEntry
  {
    PhongMaterial(IndexedId("box_material_", index), ColorOf(draw, index), true, 0.8, 2)
  }

  function BoxObject(size: Dims, pos: Point, index: nat): SceneObject {
    SceneObject(IndexedId("box_object_", index), "Mesh", "Box " + NatToString(index + 1),
                IndexedId("box_geometry_", index), IndexedId("box_material_", index),
                TranslationMatrix(Centre(size, pos)))
  }

  /**
   * The mesh of a box spans exactly the box: a Three.js box geometry is
   * centred on its translation, and its width, height and depth, halved
   * either side of slots 12, 13 and 14, give the lower corner and the lower
   * corner plus the extents on x, y and z.
   */
  lemma BoxObjectSpansBox(size: Dims, pos: Point, index: nat)
    ensures BoxGeometryEntry(size, index).data.BoxShape?
    ensures BoxObject(size, pos, index).matrix[12] - BoxGeometryEntry(size, index).data.width / 2.0 == pos.x
    ensures BoxObject(size, pos, index).matrix[12] + BoxGeometryEntry(size, index).data.width / 2.0 == pos.x + size.x
    ensures BoxObject(size, pos, index).matrix[13] - BoxGeometryEntry(size, index).data.height / 2.0 == pos.y
    ensures BoxObject(size, pos, index).matrix[13] + BoxGeometryEntry(size, index).data.height / 2.0 == pos.y + size.y
    ensures BoxObject(size, pos, index).matrix[14] - BoxGeometryEntry(size, index).data.depth / 2.0 == pos.z
    ensures BoxObject(size, pos, index).matrix[14] + BoxGeometryEntry(size, index).data.depth / 2.0 == pos.z + size.z
    ensures BoxGeometryEntry(size, index).data.widthSegments == 1
    ensures BoxGeometryEntry(size, index).data.heightSegments == 1
    ensures BoxGeometryEntry(size, index).data.depthSegments == 1
    ensures BoxObject(size, pos, index).geometry == BoxGeometryEntry(size, index).uuid
  {
  }

  /** The geometries of the boxes after the container, box i with index suffix i. */
  function BoxGeometries(ps: seq<Placement>): (gs: seq<GeometryEntry>)
    ensures |gs| == |ps|
  {
    seq(|ps|, i requires 0 <= i < |ps| => BoxGeometryEntry(ps[i].size, i))
  }

  function BoxMaterials(draw: nat -> (bv8, bv8, bv8), n: nat): (ms: seq<MaterialEntry>)
    ensures |ms| == n
  {
    seq(n, i requires 0 <= i < n => BoxMaterial(draw, i))
  }

  function BoxObjects(ps: seq<Placement>): (os: seq<SceneObject>)
    ensures |os| == |ps|
  {
    seq(|ps|, i requires 0 <= i < |ps| => BoxObject(ps[i].size, ps[i].pos, i))
  }

  /** Extending the placements by one extends each list by that box's entry. */
  lemma BoxListsAppend(draw: nat -> (bv8, bv8, bv8), ps: seq<Placement>, p: Placement)
    ensures BoxGeometries(ps + [p]) == BoxGeometries(ps) + [BoxGeometryEntry(p.size, |ps|)]
    ensures BoxMaterials(draw, |ps| + 1) == BoxMaterials(draw, |ps|) + [BoxMaterial(draw, |ps|)]
    ensures BoxObjects(ps + [p]) == BoxObjects(ps) + [BoxObject(p.size, p.pos, |ps|)]
  {
    assert forall i :: 0 <= i < |ps| ==> (ps + [p])[i] == ps[i];
  }

  /** The geometry list of a complete scene: the container, then the boxes. */
  function SceneGeometries(pallet: Dims, ps: seq<Placement>): seq<GeometryEntry> {
    [ContainerGeometry(pallet)] + BoxGeometries(ps)
  }

  /** Every geometry of a complete scene has its own identifier. */
  lemma SceneGeometryIdsDistinct(pallet: Dims, ps: seq<Placement>)
    ensures forall i, j :: 0 <= i < j < |SceneGeometries(pallet, ps)| ==>
      SceneGeometries(pallet, ps)[i].uuid != SceneGeometries(pallet, ps)[j].uuid
  {
    var gs := SceneGeometries(pallet, ps);
    forall i, j | 0 <= i < j < |gs|
      ensures gs[i].uuid != gs[j].uuid
    {
      if i == 0 {
        assert gs[j].uuid == IndexedId("box_geometry_", j - 1);
        assert gs[i].uuid[0] == 'c' && gs[j].uuid[0] == 'b';
      } else {
        IndexedIdsDistinct("box_geometry_", i - 1, j - 1);
      }
    }
  }

  // ---------------------------------------------------------------------
  // The exporter
  // ---------------------------------------------------------------------

  /** A stored box row: its extents, whether it was packed, and its position (null when unset). */
  datatype DbBox = DbBox(dims: Dims, isPacked: bool, position: Option<Point>)

  /** The environment as the exporter sees it: its space's `boxes` attribute (absent, None, or a list) and the bin's largest dimension. */
  datatype SceneEnv = SceneEnv(boxes: Option<Option<seq<Record>>>, binMax: real)

  datatype SceneFault = BadRecord(error: RecordError) | NullPosition(index: nat)

  /** `boxes.filter(is_packed=True)`: the packed rows, in order. */
  function PackedRows(rows: seq<DbBox>): (r: seq<DbBox>)
    ensures forall b :: b in r <==> b in rows && b.isPacked
    ensures |r| <= |rows|
  {
    if rows == [] then []
    else if rows[0].isPacked then [rows[0]] + PackedRows(rows[1..])
    else PackedRows(rows[1..])
  }

  /**
   * The filter keeps order and multiplicity: a single row is kept exactly when
   * it is packed, and filtering a concatenation concatenates the filtered parts.
   */
  lemma {:induction false} PackedRowsAppend(a: seq<DbBox>, b: seq<DbBox>)
    ensures PackedRows(a + b) == PackedRows(a) + PackedRows(b)
    ensures |a| == 1 ==> PackedRows(a) == if a[0].isPacked then a else []
    decreases |a|
  {
    if a == [] {
      assert a + b == b;
    } else {
      PackedRowsAppend(a[1..], b);
      assert (a + b)[1..] == a[1..] + b;
      if |a| == 1 {
        assert a[1..] == [];
      }
    }
  }

  /** The placements of stored rows; the first row without a position is a fault. */
  function RowPlacements(rows: seq<DbBox>): (r: Result<seq<Placement>, SceneFault>)
    ensures r.Ok? <==> forall i :: 0 <= i < |rows| ==> rows[i].position.Some?
    ensures r.Ok? ==> |r.value| == |rows|
    ensures r.Ok? ==> forall i :: 0 <= i < |rows| ==> r.value[i] == Placement(rows[i].dims, rows[i].position.value)
    ensures r.Err? ==> r.error.NullPosition? && r.error.index < |rows| && rows[r.error.index].position.None?
    ensures r.Err? ==> forall i :: 0 <= i < r.error.index ==> rows[i].position.Some?
  {
    if rows == [] then Ok([])
    else if rows[0].position.None? then Err(NullPosition(0))
    else
      match RowPlacements(rows[1..])
      case Err(f) => Err(NullPosition(f.index + 1))
      case Ok(ps) =>
        var r := [Placement(rows[0].dims, rows[0].position.value)] + ps;
        assert forall i :: 1 <= i < |rows| ==> rows[i] == rows[1..][i - 1] && r[i] == ps[i - 1];
        Ok(r)
  }

  /** Whether the environment's boxes are used rather than the stored rows. */
  predicate UsesEnvironment(env: Option<SceneEnv>) {
    env.Some? && env.value.boxes.Some?
  }

  /**
   * The boxes a scene shows: the environment's records when its space has
   * a `boxes` attribute (iterating None is a fault), else the packed rows.
   */
  function SceneBoxes(env: Option<SceneEnv>, rows: seq<DbBox>): (r: Result<seq<Placement>, SceneFault>)
    ensures UsesEnvironment(env) && env.value.boxes.value.Some? ==>
      (r.Ok? <==> ParseAll(env.value.boxes.value.value, env.value.binMax).Ok?)
    ensures UsesEnvironment(env) && env.value.boxes.value.Some? && r.Ok? ==>
      |r.value| == |env.value.boxes.value.value| && r.value == ParseAll(env.value.boxes.value.value, env.value.binMax).value
    ensures UsesEnvironment(env) && env.value.boxes.value.Some? && r.Err? ==>
      r.error == BadRecord(ParseAll(env.value.boxes.value.value, env.value.binMax).error)
    ensures UsesEnvironment(env) && env.value.boxes.value.None? ==> r == Err(BadRecord(NotIterable))
    ensures !UsesEnvironment(env) ==> r == RowPlacements(PackedRows(rows))
  {
    if UsesEnvironment(env) then
      match env.value.boxes.value
      case None => Err(BadRecord(NotIterable))
      case Some(records) =>
        match ParseAll(records, env.value.binMax)
        case Err(e) => Err(BadRecord(e))
        case Ok(ps) => Ok(ps)
    else RowPlacements(PackedRows(rows))
  }

  /** A complete scene has 1 + k geometries, materials and objects for k boxes. */
  lemma SceneSizes(pallet: Dims, draw: nat -> (bv8, bv8, bv8), ps: seq<Placement>)
    ensures |SceneGeometries(pallet, ps)| == 1 + |ps|
    ensures |[ContainerMaterial] + BoxMaterials(draw, |ps|)| == 1 + |ps|
    ensures |[ContainerObject] + BoxObjects(ps)| == 1 + |ps|
  {
  }

  class WebSceneExporter {
    const pallet: Dims
    const rows: seq<DbBox>
    const env: Option<SceneEnv>
    const draw: nat -> (bv8, bv8, bv8)
    var geometries: seq<GeometryEntry>
    var materials: seq<MaterialEntry>
    var objects: seq<SceneObject>

    /** The lists grow together, and object i refers to geometry i and material i. */
    ghost predicate Valid()
      reads this
    {
      && |geometries| == |materials| == |objects|
      && forall i :: 0 <= i < |objects| ==>
           objects[i].geometry == geometries[i].uuid && objects[i].material == materials[i].uuid
    }

    constructor(pallet: Dims, rows: seq<DbBox>, env: Option<SceneEnv>, draw: nat -> (bv8, bv8, bv8))
      ensures Valid()
      ensures this.pallet == pallet && this.rows == rows && this.env == env && this.draw == draw
      ensures geometries == [] && materials == [] && objects == []
    {
      this.pallet, this.rows, this.env, this.draw := pallet, rows, env, draw;
      geometries, materials, objects := [], [], [];
    }

    method AddContainer()
      requires Valid()
      modifies this
      ensures Valid()
      ensures geometries == old(geometries) + [ContainerGeometry(pallet)]
      ensures materials == old(materials) + [ContainerMaterial]
      ensures objects == old(objects) + [ContainerObject]
    {
      geometries := geometries + [ContainerGeometry(pallet)];
      materials := materials + [ContainerMaterial];
      objects := objects + [ContainerObject];
    }

    /** Appends the entries of box `index` placed at `pos` with extents `size`. */
    method AddEnvironmentBox(size: Dims, pos: Point, index: nat)
      requires Valid()
      modifies this
      ensures Valid()
      ensures geometries == old(geometries) + [BoxGeometryEntry(size, index)]
      ensures materials == old(materials) + [BoxMaterial(draw, index)]
      ensures objects == old(objects) + [BoxObject(size, pos, index)]
    {
      var centre := Centre(size, pos);
      var geometryId := IndexedId("box_geometry_", index);
      geometries := geometries + [GeometryEntry(geometryId, "BoxGeometry", CreateBoxGeometry(size.x, size.y, size.z))];
      var materialId := IndexedId("box_material_", index);
      materials := materials + [PhongMaterial(materialId, ColorOf(draw, index), true, 0.8, 2)];
      objects := objects + [SceneObject(IndexedId("box_object_", index), "Mesh", "Box " + NatToString(index + 1),
                                        geometryId, materialId, TranslationMatrix(centre))];
    }

    /** The same for a stored row; a row without a position is a fault and adds nothing. */
    method AddDatabaseBox(box: DbBox, index: nat) returns (ok: bool)
      requires Valid()
      modifies this
      ensures Valid()
      ensures ok <==> box.position.Some?
      ensures ok ==> geometries == old(geometries) + [BoxGeometryEntry(box.dims, index)]
      ensures ok ==> materials == old(materials) + [BoxMaterial(draw, index)]
      ensures ok ==> objects == old(objects) + [BoxObject(box.dims, box.position.value, index)]
      ensures !ok ==> geometries == old(geometries) && materials == old(materials) && objects == old(objects)
    {
      if box.position.None? {
        return false;
      }
      AddEnvironmentBox(box.dims, box.position.value, index);
      ok := true;
    }

    /** Appends one entry of each kind per placement, box i with index i. */
    method AddBoxes(ps: seq<Placement>)
      requires Valid()
      modifies this
      ensures Valid()
      ensures geometries == old(geometries) + BoxGeometries(ps)
      ensures materials == old(materials) + BoxMaterials(draw, |ps|)
      ensures objects == old(objects) + BoxObjects(ps)
    {
      for i := 0 to |ps|
        invariant Valid()
        invariant geometries == old(geometries) + BoxGeometries(ps[..i])
        invariant materials == old(materials) + BoxMaterials(draw, i)
        invariant objects == old(objects) + BoxObjects(ps[..i])
      {
        assert ps[..i + 1] == ps[..i] + [ps[i]];
        BoxListsAppend(draw, ps[..i], ps[i]);
        AddEnvironmentBox(ps[i].size, ps[i].pos, i);
      }
      assert ps[..|ps|] == ps;
    }

    /**
     * The container, then the boxes. When the boxes can be read the lists
     * gain the container and one entry per box; when the environment's
     * records cannot be read only the container is added; a stored row
     * without a position stops after the rows before it.
     */
    method GenerateSceneData() returns (fault: Option<SceneFault>)
      requires Valid()
      modifies this
      ensures Valid()
      ensures fault.None? <==> SceneBoxes(env, rows).Ok?
      ensures SceneBoxes(env, rows).Ok? ==>
        && geometries == old(geometries) + [ContainerGeometry(pallet)] + BoxGeometries(SceneBoxes(env, rows).value)
        && materials == old(materials) + [ContainerMaterial] + BoxMaterials(draw, |SceneBoxes(env, rows).value|)
        && objects == old(objects) + [ContainerObject] + BoxObjects(SceneBoxes(env, rows).value)
      ensures SceneBoxes(env, rows).Err? ==> fault == Some(SceneBoxes(env, rows).error)
      ensures SceneBoxes(env, rows).Err? && UsesEnvironment(env) ==>
        |geometries| == |old(geometries)| + 1
      ensures SceneBoxes(env, rows).Err? && !UsesEnvironment(env) ==>
        |geometries| == |old(geometries)| + 1 + SceneBoxes(env, rows).error.index
    {
      AddContainer();
      if UsesEnvironment(env) {
        var raw := env.value.boxes.value;
        if raw.None? {
          return Some(BadRecord(NotIterable));
        }
        var placed := ParseRecords(raw.value, env.value.binMax);
        if placed.Err? {
          return Some(BadRecord(placed.error));
        }
        AddBoxes(placed.value);
        fault := None;
      } else {
        fault := AddPackedRows(PackedRows(rows));
      }
    }

    /** The stored-row loop: rows in order until one has no position. */
    method AddPackedRows(packed: seq<DbBox>) returns (fault: Option<SceneFault>)
      requires Valid()
      modifies this
      ensures Valid()
      ensures fault.None? <==> RowPlacements(packed).Ok?
      ensures RowPlacements(packed).Ok? ==>
        && geometries == old(geometries) + BoxGeometries(RowPlacements(packed).value)
        && materials == old(materials) + BoxMaterials(draw, |packed|)
        && objects == old(objects) + BoxObjects(RowPlacements(packed).value)
      ensures RowPlacements(packed).Err? ==> fault == Some(RowPlacements(packed).error)
      ensures RowPlacements(packed).Err? ==> |geometries| == |old(geometries)| + RowPlacements(packed).error.index
    {
      ghost var done: seq<Placement> := [];
      for i := 0 to |packed|
        invariant Valid()
        invariant |done| == i
        invariant forall j :: 0 <= j < i ==> packed[j].position.Some? && done[j] == Placement(packed[j].dims, packed[j].position.value)
        invariant geometries == old(geometries) + BoxGeometries(done)
        invariant materials == old(materials) + BoxMaterials(draw, i)
        invariant objects == old(objects) + BoxObjects(done)
      {
        var ok := AddDatabaseBox(packed[i], i);
        if !ok {
          assert RowPlacements(packed).Err?;
          assert RowPlacements(packed).error.index == i;
          return Some(NullPosition(i));
        }
        var p := Placement(packed[i].dims, packed[i].position.value);
        BoxListsAppend(draw, done, p);
        done := done + [p];
      }
      assert RowPlacements(packed).Ok?;
      assert RowPlacements(packed).value == done;
      fault := None;
    }
  }
}
