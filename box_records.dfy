/**
 * Normalisation of the environment's placed-box records into (size, lower
 * corner) pairs, as the viewer and the scene exporter both do it: a record may
 * be a dictionary, an object with attributes, or a flat list of six numbers,
 * and the shapes are tried in a fixed order.
 */
module BoxRecords {
  import opened Options
  import opened Geometry

  /**
   * A value found in a record: None, a number, a list or tuple of values, or
   * some other object (not iterable, not a number).
   */
  datatype Value = Null | Num(n: real) | Items(items: seq<Value>) | Opaque

  /**
   * A raw box record: a dictionary; an object with its instance attributes
   * (which are also the entries of its `__dict__`); or a list or tuple of
   * numbers.
   */
  datatype Record = DictRecord(entries: map<string, Value>) | ObjectRecord(attrs: map<string, Value>) | FlatRecord(values: seq<real>)

  /** Why a record could not be read. */
  datatype RecordError =
    | NotIterable      // list() of a value that is not a list or tuple
    | WrongLength(n: nat)
    | NotAFloat        // float() of a value that is not a number
    | Unrecognized     // no shape matched
    | NoBoxes          // the environment exposes no box list

  /** A normalised record: the box extents and its lower corner. */
  datatype Placement = Placement(size: Dims, pos: Point)

  /** Python truthiness: None, zero and the empty list are false. */
  predicate Truthy(v: Value) {
    match v
    case Null => false
    case Num(n) => n != 0.0
    case Items(s) => s != []
    case Opaque => true
  }

  /** `vs[0] or vs[1] or ...`: the first truthy value, else the last one. */
  function OrChain(vs: seq<Value>): (r: Value)
    requires vs != []
    ensures r in vs
    ensures Truthy(r) <==> exists i :: 0 <= i < |vs| && Truthy(vs[i])
    ensures Truthy(r) ==> exists i :: 0 <= i < |vs| && r == vs[i] && forall j :: 0 <= j < i ==> !Truthy(vs[j])
  {
    if Truthy(vs[0]) || |vs| == 1 then vs[0] else OrChain(vs[1..])
  }

  /** `d.get(k)`: the entry, or None when the key is absent. */
  function Get(d: map<string, Value>, k: string): Value {
    if k in d then d[k] else Null
  }

  /** The entry of the first key of `keys` present in `d`, whatever its value. */
  function FirstKey(d: map<string, Value>, keys: seq<string>): (r: Option<Value>)
    ensures r.None? <==> forall i :: 0 <= i < |keys| ==> keys[i] !in d
    ensures r.Some? ==> exists i :: 0 <= i < |keys| && keys[i] in d && r.value == d[keys[i]] &&
                                    forall j :: 0 <= j < i ==> keys[j] !in d
  {
    if keys == [] then None
    else if keys[0] in d then Some(d[keys[0]])
    else
      var r := FirstKey(d, keys[1..]);
      assert r.Some? ==> exists i :: 0 <= i < |keys| - 1 && keys[1..][i] in d && r.value == d[keys[1..][i]] &&
                                     forall j :: 0 <= j < i ==> keys[1..][j] !in d;
      r
  }

  /** `float()` of a value. */
  function Float(v: Value): Result<real, RecordError> {
    if v.Num? then Ok(v.n) else Err(NotAFloat)
  }

  /** The length-3 coercion: list(v), exactly three entries, each converted by float(). */
  function Tuple3(v: Value): (r: Result<(real, real, real), RecordError>)
    ensures r.Ok? <==> v.Items? && |v.items| == 3 && v.items[0].Num? && v.items[1].Num? && v.items[2].Num?
    ensures r.Ok? ==> r.value == (v.items[0].n, v.items[1].n, v.items[2].n)
    ensures v.Items? && |v.items| != 3 ==> r == Err(WrongLength(|v.items|))
    ensures !v.Items? ==> r == Err(NotIterable)
  {
    match v
    case Items(s) =>
      if |s| != 3 then Err(WrongLength(|s|))
      else if !s[0].Num? || !s[1].Num? || !s[2].Num? then Err(NotAFloat)
      else Ok((s[0].n, s[1].n, s[2].n))
    case _ => Err(NotIterable)
  }

  /** The pair (size, pos) from two coerced values; the size is coerced first. */
  function Pair(size: Value, pos: Value): Result<Placement, RecordError> {
    match Tuple3(size)
    case Err(e) => Err(e)
    case Ok(s) =>
      match Tuple3(pos)
      case Err(e) => Err(e)
      case Ok(p) => Ok(Placement(Dims(s.0, s.1, s.2), Point(p.0, p.1, p.2)))
  }

  /**
   * The rule for six numbers: position first when the first three lie in
   * [0, max bin dimension] and the last three are positive.
   */
  predicate PositionFirst(v: seq<real>, binMax: real)
    requires |v| == 6
  {
    (forall k :: 0 <= k < 3 ==> 0.0 <= v[k] <= binMax) && (forall k :: 3 <= k < 6 ==> v[k] > 0.0)
  }

  const SizeKeys: seq<string> := ["size", "dims", "extent", "box", "whd"]
  const PosKeys: seq<string> := ["pos", "origin", "xyz", "lower", "corner"]

  predicate HasBoxAttrs(a: map<string, Value>) {
    "x" in a && "y" in a && "z" in a && "lx" in a && "ly" in a && "lz" in a
  }

  /** One record, read by trying the shapes in order. */
  function ParseRecord(r: Record, binMax: real): (res: Result<Placement, RecordError>)
    ensures r.FlatRecord? ==> (res.Ok? <==> |r.values| == 6)
    ensures r.FlatRecord? && res.Ok? ==> PositionFirstList(res.value) == r.values || SizeFirstList(res.value) == r.values
  {
    match r
    case DictRecord(d) =>
      var size := OrChain([Get(d, "size"), Get(d, "dims"), Get(d, "extent")]);
      var pos := OrChain([Get(d, "pos"), Get(d, "origin"), Get(d, "xyz")]);
      if size != Null && pos != Null then Pair(size, pos) else Err(Unrecognized)
    case ObjectRecord(a) =>
      if "size" in a && "pos" in a then Pair(a["size"], a["pos"])
      else if "dims" in a && "origin" in a then Pair(a["dims"], a["origin"])
      else if HasBoxAttrs(a) then Pair(Items([a["x"], a["y"], a["z"]]), Items([a["lx"], a["ly"], a["lz"]]))
      else
        var size, pos := FirstKey(a, SizeKeys), FirstKey(a, PosKeys);
        if size.Some? && size.value != Null && pos.Some? && pos.value != Null then Pair(size.value, pos.value)
        else Err(Unrecognized)
    case FlatRecord(v) =>
      if |v| != 6 then Err(Unrecognized)
      else if PositionFirst(v, binMax) then Ok(Placement(Dims(v[3], v[4], v[5]), Point(v[0], v[1], v[2])))
      else Ok(Placement(Dims(v[0], v[1], v[2]), Point(v[3], v[4], v[5])))
  }

  /** The six numbers of a box written position first. */
  function PositionFirstList(p: Placement): seq<real> {
    [p.pos.x, p.pos.y, p.pos.z, p.size.x, p.size.y, p.size.z]
  }

  /** The six numbers of a box written size first. */
  function SizeFirstList(p: Placement): seq<real> {
    [p.size.x, p.size.y, p.size.z, p.pos.x, p.pos.y, p.pos.z]
  }

  /** A box inside the bin with positive extents, written position first, reads back as itself. */
  lemma PositionFirstRoundTrip(p: Placement, binMax: real)
    requires 0.0 <= p.pos.x <= binMax && 0.0 <= p.pos.y <= binMax && 0.0 <= p.pos.z <= binMax
    requires p.size.x > 0.0 && p.size.y > 0.0 && p.size.z > 0.0
    ensures ParseRecord(FlatRecord(PositionFirstList(p)), binMax) == Ok(p)
  {
    var v := PositionFirstList(p);
    assert forall k :: 0 <= k < 3 ==> 0.0 <= v[k] <= binMax;
    assert forall k :: 3 <= k < 6 ==> v[k] > 0.0;
  }

  /**
   * A box written size first reads back as itself exactly when its six
   * numbers fail the position-first rule, or when size and position coincide.
   */
  lemma SizeFirstRoundTrip(p: Placement, binMax: real)
    ensures ParseRecord(FlatRecord(SizeFirstList(p)), binMax) == Ok(p) <==>
      !PositionFirst(SizeFirstList(p), binMax) || (p.size.x, p.size.y, p.size.z) == (p.pos.x, p.pos.y, p.pos.z)
  {
  }

  /** In particular a box at the origin, written size first, is never misread. */
  lemma {:induction false} SizeFirstAtOrigin(p: Placement, binMax: real)
    requires p.pos.x == 0.0 || p.pos.y == 0.0 || p.pos.z == 0.0
    ensures ParseRecord(FlatRecord(SizeFirstList(p)), binMax) == Ok(p)
  {
    var v := SizeFirstList(p);
    assert v[3] <= 0.0 || v[4] <= 0.0 || v[5] <= 0.0;
    assert !PositionFirst(v, binMax);
    SizeFirstRoundTrip(p, binMax);
  }

  /**
   * The rule is ambiguous: the size-first list of a unit box at (2, 2, 2) in
   * a bin of size 10 is read as a box of size 2 at (1, 1, 1).
   */
  lemma SixTupleAmbiguity()
    ensures var p := Placement(Dims(1.0, 1.0, 1.0), Point(2.0, 2.0, 2.0));
      ParseRecord(FlatRecord(SizeFirstList(p)), 10.0) == Ok(Placement(Dims(2.0, 2.0, 2.0), Point(1.0, 1.0, 1.0)))
  {
    var v := SizeFirstList(Placement(Dims(1.0, 1.0, 1.0), Point(2.0, 2.0, 2.0)));
    assert forall k :: 0 <= k < 3 ==> 0.0 <= v[k] <= 10.0;
  }

  /** A record of the environment's own box class (x, y, z, lx, ly, lz) reads as size (x, y, z) at (lx, ly, lz). */
  lemma BoxClassRecord(a: map<string, Value>, binMax: real)
    requires HasBoxAttrs(a) && !("size" in a && "pos" in a) && !("dims" in a && "origin" in a)
    requires a["x"].Num? && a["y"].Num? && a["z"].Num? && a["lx"].Num? && a["ly"].Num? && a["lz"].Num?
    ensures ParseRecord(ObjectRecord(a), binMax) ==
      Ok(Placement(Dims(a["x"].n, a["y"].n, a["z"].n), Point(a["lx"].n, a["ly"].n, a["lz"].n)))
  {
  }

  /**
   * A dictionary record is read only when a size-like and a position-like
   * entry are found, and it is accepted only when both `or` chains give truthy
   * values; a truthy "size" entry wins over "dims" and "extent", and a truthy
   * "pos" over "origin" and "xyz".
   */
  lemma DictRecordKeys(d: map<string, Value>, binMax: real)
    ensures (forall k :: k in ["size", "dims", "extent"] ==> k !in d) ==> ParseRecord(DictRecord(d), binMax) == Err(Unrecognized)
    ensures (forall k :: k in ["pos", "origin", "xyz"] ==> k !in d) ==> ParseRecord(DictRecord(d), binMax) == Err(Unrecognized)
    ensures "size" in d && Truthy(d["size"]) && "pos" in d && Truthy(d["pos"]) ==>
      ParseRecord(DictRecord(d), binMax) == Pair(d["size"], d["pos"])
    ensures ParseRecord(DictRecord(d), binMax).Ok? ==>
      && Truthy(OrChain([Get(d, "size"), Get(d, "dims"), Get(d, "extent")]))
      && Truthy(OrChain([Get(d, "pos"), Get(d, "origin"), Get(d, "xyz")]))
  {
  }

  /** The records parse without error exactly up to index i (exclusive). */
  ghost predicate AllParse(records: seq<Record>, binMax: real, i: int) {
    forall j :: 0 <= j < i && j < |records| ==> ParseRecord(records[j], binMax).Ok?
  }

  /**
   * The whole list read record by record: one placement per record, in
   * order; the first record that cannot be read decides the error.
   */
  function ParseAll(records: seq<Record>, binMax: real): (r: Result<seq<Placement>, RecordError>)
    ensures r.Ok? <==> AllParse(records, binMax, |records|)
    ensures r.Ok? ==> |r.value| == |records|
    ensures r.Ok? ==> forall i :: 0 <= i < |records| ==> ParseRecord(records[i], binMax) == Ok(r.value[i])
    ensures r.Err? ==> exists i :: (0 <= i < |records| && AllParse(records, binMax, i) &&
                                    ParseRecord(records[i], binMax) == Err(r.error))
  {
    if records == [] then Ok([])
    else
      match ParseRecord(records[0], binMax)
      case Err(e) =>
        assert AllParse(records, binMax, 0);
        Err(e)
      case Ok(p) =>
        var rest := ParseAll(records[1..], binMax);
        match rest
        case Err(e) =>
          ErrorShift(records, binMax, e);
          Err(e)
        case Ok(ps) =>
          var r := [p] + ps;
          assert forall i :: 1 <= i < |records| ==> records[i] == records[1..][i - 1] && r[i] == ps[i - 1];
          Ok(r)
  }

  /**
   * The loop over the raw records, appending one placement per record and
   * stopping at the first record that cannot be read.
   */
  method ParseRecords(records: seq<Record>, binMax: real) returns (r: Result<seq<Placement>, RecordError>)
    ensures r == ParseAll(records, binMax)
  {
    var parsed: seq<Placement> := [];
    for i := 0 to |records|
      invariant |parsed| == i
      invariant forall j :: 0 <= j < i ==> ParseRecord(records[j], binMax) == Ok(parsed[j])
    {
      match ParseRecord(records[i], binMax) {
        case Err(e) =>
          assert AllParse(records, binMax, i);
          FirstErrorUnique(records, binMax, i, ParseAll(records, binMax));
          return Err(e);
        case Ok(p) =>
          parsed := parsed + [p];
      }
    }
    var all := ParseAll(records, binMax);
    assert all.Ok?;
    assert all.value == parsed;
    r := Ok(parsed);
  }

  /** An error found in the tail, behind a readable head, is found at the shifted index. */
  lemma ErrorShift(records: seq<Record>, binMax: real, e: RecordError)
    requires records != [] && ParseRecord(records[0], binMax).Ok?
    requires exists i :: (0 <= i < |records| - 1 && AllParse(records[1..], binMax, i) &&
                          ParseRecord(records[1..][i], binMax) == Err(e))
    ensures exists i :: (0 <= i < |records| && AllParse(records, binMax, i) &&
                         ParseRecord(records[i], binMax) == Err(e))
  {
    var i :| 0 <= i < |records| - 1 && AllParse(records[1..], binMax, i) && ParseRecord(records[1..][i], binMax) == Err(e);
    assert AllParse(records, binMax, i + 1);
  }

  /** The first record that cannot be read is the one ParseAll reports. */
  lemma FirstErrorUnique(records: seq<Record>, binMax: real, i: int, r: Result<seq<Placement>, RecordError>)
    requires 0 <= i < |records| && AllParse(records, binMax, i) && ParseRecord(records[i], binMax).Err?
    requires r == ParseAll(records, binMax)
    ensures r == Err(ParseRecord(records[i], binMax).error)
  {
    var k :| 0 <= k < |records| && AllParse(records, binMax, k) && ParseRecord(records[k], binMax) == Err(r.error);
    assert k == i;
  }
}
