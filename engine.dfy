/**
 * The packing engine: it builds an environment from a packing session (pallet
 * size, rotation setting, algorithm, boxes in processing order), runs one of
 * the heuristics over the boxes, and reports, per box, whether and where it
 * was placed. When the environment cannot be set up it reports the fixed
 * fallback result instead.
 */
module Engine {
  import opened Options
  import opened Geometry
  import opened Environment
  import opened CornerHeight
  import opened RandomPlacement

  /** A box row of the session: database id and extents (x, y, z). */
  datatype SessionBox = SessionBox(id: int, dims: Dims)

  /**
   * The session configuration the engine reads. `boxes` is in processing
   * order (the `order` field).
   */
  datatype Session = Session(pallet: Dims, rotation: int, algorithm: string, boxes: seq<SessionBox>)

  /** One entry of the result's box list; `position` is None exactly for unpacked boxes. */
  datatype BoxRecord = BoxRecord(id: int, isPacked: bool, position: Option<Point>, dimensions: Dims)

  /** One entry of the result's packing steps; `step` is the index of the box in the session. */
  datatype PackingStep = PackingStep(boxId: int, position: Point, dimensions: Dims, step: nat)

  /** The results dictionary: utilization rate, packed count, box list, packing steps. */
  datatype Results = Results(utilization: real, packedCount: nat, boxes: seq<BoxRecord>, steps: seq<PackingStep>)

  /** The results an engine holds before any run. */
  const NoResults := Results(0.0, 0, [], [])

  /** Item set used when the session has no boxes. */
  const DefaultItems: seq<Dims> := [Dims(1.0, 1.0, 1.0), Dims(2.0, 2.0, 2.0), Dims(3.0, 3.0, 3.0)]

  /** At most this many boxes are attempted in one run. */
  const MaxIterations: nat := 50

  // ---------------------------------------------------------------------------
  // Setup: item set and packing mode
  // ---------------------------------------------------------------------------

  /** Python's `float.is_integer()`. */
  predicate Integral(r: real) {
    r.Floor as real == r
  }

  predicate AllIntegral(d: Dims) {
    Integral(d.x) && Integral(d.y) && Integral(d.z)
  }

  /** The item set handed to the environment: the session's box extents, or the default set. */
  function ItemSet(boxes: seq<SessionBox>): (items: seq<Dims>)
    ensures |items| >= 1
    ensures boxes != [] ==> |items| == |boxes| && forall i :: 0 <= i < |boxes| ==> items[i] == boxes[i].dims
  {
    if boxes == [] then DefaultItems else seq(|boxes|, i requires 0 <= i < |boxes| => boxes[i].dims)
  }

  /**
   * The session can be packed in discrete mode: the pallet size and every
   * item extent are whole numbers.
   */
  predicate DiscreteMode(session: Session) {
    var items := ItemSet(session.boxes);
    AllIntegral(session.pallet) && forall i :: 0 <= i < |items| ==> AllIntegral(items[i])
  }

  /**
   * Discrete mode in terms of the session alone: with boxes, every box must be
   * whole-numbered; without boxes the default item set always is, so the pallet
   * alone decides.
   */
  lemma DiscreteModeIff(session: Session)
    ensures DiscreteMode(session) <==>
      AllIntegral(session.pallet) && forall i :: 0 <= i < |session.boxes| ==> AllIntegral(session.boxes[i].dims)
  {
    if session.boxes == [] {
      var items := DefaultItems;
      assert Integral(1.0) && Integral(2.0) && Integral(3.0) by {
        assert 1.0.Floor == 1 && 2.0.Floor == 2 && 3.0.Floor == 3;
      }
      assert forall i :: 0 <= i < |items| ==> AllIntegral(items[i]);
      assert ItemSet(session.boxes) == items;
    } else {
      assert forall i :: 0 <= i < |session.boxes| ==> ItemSet(session.boxes)[i] == session.boxes[i].dims;
    }
  }

  /** The heuristic a run uses. */
  datatype Heuristic = CornerHeightDiscrete | CornerHeightContinuous | RandomHeuristic

  /**
   * The algorithm dispatch: "random" selects the random heuristic; "corner_height"
   * and every other value select corner height in the session's mode.
   */
  function Dispatch(algorithm: string, discrete: bool): (h: Heuristic)
    ensures h == RandomHeuristic <==> algorithm == "random"
    ensures h == CornerHeightDiscrete <==> algorithm != "random" && discrete
    ensures h == CornerHeightContinuous <==> algorithm != "random" && !discrete
  {
    if algorithm == "corner_height" then
      if discrete then CornerHeightDiscrete else CornerHeightContinuous
    else if algorithm == "random" then RandomHeuristic
    else if discrete then CornerHeightDiscrete else CornerHeightContinuous
  }

  // ---------------------------------------------------------------------------
  // Fallback results
  // ---------------------------------------------------------------------------

  /** The number of boxes the fallback reports as packed: min(n, max(1, n // 2)). */
  function FallbackCount(n: nat): (pc: nat)
    ensures pc <= n
    ensures n >= 1 ==> pc >= 1
    ensures pc == n <==> n <= 1
    ensures n >= 2 ==> pc == n / 2
  {
    var half := if n / 2 > 1 then n / 2 else 1;
    if n < half then n else half
  }

  /** The record of the box in slot `i`: packed on a 3-wide grid of unit cells when i < pc. */
  function FallbackRecord(i: nat, b: SessionBox, pc: nat): BoxRecord {
    if i < pc then BoxRecord(b.id, true, Some(Point((i % 3) as real, (i / 3) as real, 0.0)), b.dims)
    else BoxRecord(b.id, false, None, b.dims)
  }

  function FallbackRecords(boxes: seq<SessionBox>, pc: nat): seq<BoxRecord> {
    if boxes == [] then []
    else FallbackRecords(boxes[..|boxes| - 1], pc) + [FallbackRecord(|boxes| - 1, boxes[|boxes| - 1], pc)]
  }

  /** The fallback records built one box at a time. */
  method FallbackRecordList(boxes: seq<SessionBox>, pc: nat) returns (records: seq<BoxRecord>)
    ensures records == FallbackRecords(boxes, pc)
  {
    records := [];
    for i := 0 to |boxes|
      invariant records == FallbackRecords(boxes[..i], pc)
    {
      var b := boxes[i];
      if i < pc {
        records := records + [BoxRecord(b.id, true, Some(Point((i % 3) as real, (i / 3) as real, 0.0)), b.dims)];
      } else {
        records := records + [BoxRecord(b.id, false, None, b.dims)];
      }
      assert boxes[..i + 1][..i] == boxes[..i];
    }
    assert boxes[..|boxes|] == boxes;
  }

  function Volume(d: Dims): real {
    d.x * d.y * d.z
  }

  /** The total volume of a list of boxes. */
  function TotalVolume(boxes: seq<SessionBox>): real {
    if boxes == [] then 0.0 else TotalVolume(boxes[..|boxes| - 1]) + Volume(boxes[|boxes| - 1].dims)
  }

  /** The fallback utilization: packed volume over pallet volume, capped at 1, and 0 for a degenerate pallet. */
  function FallbackUtilization(session: Session, pc: nat): real
    requires pc <= |session.boxes|
  {
    var pv := Volume(session.pallet);
    if pv > 0.0 then
      var ratio := TotalVolume(session.boxes[..pc]) / pv;
      if ratio < 1.0 then ratio else 1.0
    else 0.0
  }

  /**
   * The whole fallback result: one record per box, at least one of them
   * counted as packed when there are boxes, and no packing steps.
   */
  function Fallback(session: Session): (r: Results)
    ensures |r.boxes| == |session.boxes| && r.packedCount <= |r.boxes|
    ensures |session.boxes| > 0 ==> r.packedCount >= 1
    ensures r.steps == []
  {
    var pc := FallbackCount(|session.boxes|);
    FallbackRecordsShape(session.boxes, pc);
    Results(FallbackUtilization(session, pc), pc, FallbackRecords(session.boxes, pc), [])
  }

  /** The number of records flagged as packed. */
  function CountPacked(records: seq<BoxRecord>): nat {
    if records == [] then 0
    else CountPacked(records[..|records| - 1]) + (if records[|records| - 1].isPacked then 1 else 0)
  }

  /** The fallback lists every box once, in order, and exactly its first pc boxes are packed. */
  lemma {:induction false} FallbackRecordsShape(boxes: seq<SessionBox>, pc: nat)
    ensures && |FallbackRecords(boxes, pc)| == |boxes|
      && (forall i :: 0 <= i < |boxes| ==> FallbackRecords(boxes, pc)[i] == FallbackRecord(i, boxes[i], pc))
      && CountPacked(FallbackRecords(boxes, pc)) == if pc < |boxes| then pc else |boxes|
  {
    if boxes != [] {
      var n := |boxes| - 1;
      FallbackRecordsShape(boxes[..n], pc);
      var rs := FallbackRecords(boxes, pc);
      assert rs[..n] == FallbackRecords(boxes[..n], pc);
    }
  }

  /**
   * The fallback's packed count agrees with its box list, every packed box has
   * a position and dimensions equal to its session extents, and no two packed
   * boxes share a position.
   */
  lemma FallbackConsistent(session: Session)
    ensures && |Fallback(session).boxes| == |session.boxes|
      && Fallback(session).packedCount == CountPacked(Fallback(session).boxes)
      && (forall i :: 0 <= i < |Fallback(session).boxes| ==>
            Fallback(session).boxes[i].id == session.boxes[i].id && Fallback(session).boxes[i].dimensions == session.boxes[i].dims
            && (Fallback(session).boxes[i].isPacked <==> Fallback(session).boxes[i].position.Some?)
            && (Fallback(session).boxes[i].isPacked <==> i < Fallback(session).packedCount))
      && (forall i, j :: 0 <= i < j < |Fallback(session).boxes| && Fallback(session).boxes[i].isPacked && Fallback(session).boxes[j].isPacked ==>
            Fallback(session).boxes[i].position != Fallback(session).boxes[j].position)
  {
    var pc := FallbackCount(|session.boxes|);
    FallbackRecordsShape(session.boxes, pc);
    forall i: nat, j: nat | i < j
      ensures (i % 3, i / 3) != (j % 3, j / 3)
    {
      assert i == 3 * (i / 3) + i % 3 && j == 3 * (j / 3) + j % 3;
    }
  }

  lemma {:induction false} TotalVolumeNonNegative(boxes: seq<SessionBox>)
    requires forall i :: 0 <= i < |boxes| ==> boxes[i].dims.x >= 0.0 && boxes[i].dims.y >= 0.0 && boxes[i].dims.z >= 0.0
    ensures TotalVolume(boxes) >= 0.0
  {
    if boxes != [] {
      var n := |boxes| - 1;
      TotalVolumeNonNegative(boxes[..n]);
      var d := boxes[n].dims;
      assert d.x * d.y >= 0.0;
      assert d.x * d.y * d.z >= 0.0;
    }
  }

  /** The fallback utilization never exceeds 1, and is a ratio in [0, 1] when no box extent is negative. */
  lemma FallbackUtilizationBounded(session: Session)
    ensures Fallback(session).utilization <= 1.0
    ensures (forall i :: 0 <= i < |session.boxes| ==>
              session.boxes[i].dims.x >= 0.0 && session.boxes[i].dims.y >= 0.0 && session.boxes[i].dims.z >= 0.0) ==>
      Fallback(session).utilization >= 0.0
  {
    var pc := FallbackCount(|session.boxes|);
    if forall i :: 0 <= i < |session.boxes| ==>
         session.boxes[i].dims.x >= 0.0 && session.boxes[i].dims.y >= 0.0 && session.boxes[i].dims.z >= 0.0
    {
      TotalVolumeNonNegative(session.boxes[..pc]);
    }
  }

  // ---------------------------------------------------------------------------
  // A packing run
  // ---------------------------------------------------------------------------

  /** The number of boxes a run attempts: min(n, 50). */
  function Budget(n: nat): (b: nat)
    ensures b <= n && b <= MaxIterations
    ensures b == n || b == MaxIterations
  {
    if n < MaxIterations then n else MaxIterations
  }

  /** `out` is an outcome the heuristic `h` may produce for one box in state `s`. */
  ghost predicate Outcome<S(!new)>(env: Oracle<S>, h: Heuristic, bin: Dims, binIsInt: bool, s: S, out: Attempt<S>) {
    match h
    case CornerHeightDiscrete => CornerHeightOutcome(env, s, true, out)
    case CornerHeightContinuous => CornerHeightOutcome(env, s, false, out)
    case RandomHeuristic => RandomOutcome(env, s, bin, binIsInt, out)
  }

  /** The heuristic's outcome relation, as a function value the run predicates are stated over. */
  ghost function Step<S(!new)>(env: Oracle<S>, h: Heuristic, bin: Dims, binIsInt: bool): (S, Attempt<S>) -> bool {
    (s: S, a: Attempt<S>) => Outcome(env, h, bin, binIsInt, s, a)
  }

  /**
   * `trace` is a complete run from state `s` with `budget` boxes left to
   * attempt: each attempt is an outcome of the heuristic in the state the
   * previous one left, and the run stops after the budget or right after the
   * first attempt that found no placement.
   */
  ghost predicate Run<S>(step: (S, Attempt<S>) -> bool, s: S,
                     trace: seq<Attempt<S>>, budget: nat)
    decreases |trace|
  {
    if budget == 0 then trace == []
    else
      && |trace| >= 1
      && step(s, trace[0])
      && if trace[0].NoPlacement? then |trace| == 1
         else Run(step, trace[0].after, trace[1..], budget - 1)
  }

  /** `trace` is a run prefix that goes on, from `s` to `t`, without stopping. */
  ghost predicate Reaches<S>(step: (S, Attempt<S>) -> bool, s: S,
                                   trace: seq<Attempt<S>>, t: S)
    decreases |trace|
  {
    if trace == [] then t == s
    else
      && step(s, trace[0])
      && !trace[0].NoPlacement?
      && Reaches(step, trace[0].after, trace[1..], t)
  }

  /** The environment state a trace ends in. */
  function FinalState<S>(s: S, trace: seq<Attempt<S>>): S
    decreases |trace|
  {
    if trace == [] || trace[0].NoPlacement? then s else FinalState(trace[0].after, trace[1..])
  }

  lemma {:induction false} ReachesExtend<S>(step: (S, Attempt<S>) -> bool, s: S,
                                                  trace: seq<Attempt<S>>, t: S, a: Attempt<S>)
    requires Reaches(step, s, trace, t)
    requires step(t, a) && !a.NoPlacement?
    ensures Reaches(step, s, trace + [a], a.after)
    decreases |trace|
  {
    if trace != [] {
      ReachesExtend(step, trace[0].after, trace[1..], t, a);
      assert (trace + [a])[1..] == trace[1..] + [a];
    }
  }

  lemma {:induction false} ReachesRun<S>(step: (S, Attempt<S>) -> bool, s: S,
                                               trace: seq<Attempt<S>>, t: S, rest: seq<Attempt<S>>, budget: nat)
    requires Reaches(step, s, trace, t)
    requires Run(step, t, rest, budget)
    ensures Run(step, s, trace + rest, budget + |trace|)
    ensures FinalState(s, trace + rest) == FinalState(t, rest)
    decreases |trace|
  {
    if trace == [] {
      assert trace + rest == rest;
    } else {
      ReachesRun(step, trace[0].after, trace[1..], t, rest, budget);
      assert (trace + rest)[1..] == trace[1..] + rest;
    }
  }

  /** A run prefix followed by an attempt with no placement is a complete run that stops there. */
  lemma {:induction false} StoppedRun<S>(step: (S, Attempt<S>) -> bool, s: S,
                                         trace: seq<Attempt<S>>, t: S, budget: nat)
    requires 1 <= |trace| <= budget
    requires Reaches(step, s, trace[..|trace| - 1], t)
    requires step(t, trace[|trace| - 1]) && trace[|trace| - 1].NoPlacement?
    ensures Run(step, s, trace, budget) && FinalState(s, trace) == t
  {
    var m := |trace| - 1;
    var last := [trace[m]];
    assert Run(step, t, last, budget - m);
    assert FinalState(t, last) == t;
    ReachesRun(step, s, trace[..m], t, last, budget - m);
    assert trace[..m] + last == trace;
  }

  /** A run prefix that used up the whole budget is a complete run. */
  lemma {:induction false} FullRun<S>(step: (S, Attempt<S>) -> bool, s: S, trace: seq<Attempt<S>>, t: S)
    requires Reaches(step, s, trace, t)
    ensures Run(step, s, trace, |trace|) && FinalState(s, trace) == t
  {
    assert Run(step, t, [], 0);
    ReachesRun(step, s, trace, t, [], 0);
    assert trace + [] == trace;
  }

  /**
   * Shape of a run: it attempts at most the budget, at least one box when the
   * budget allows, and a stop before the budget is reached happens only right
   * after an attempt with no placement, which is never followed by another.
   */
  lemma {:induction false} RunShape<S>(step: (S, Attempt<S>) -> bool, s: S,
                                   trace: seq<Attempt<S>>, budget: nat)
    requires Run(step, s, trace, budget)
    ensures |trace| <= budget
    ensures budget > 0 ==> |trace| >= 1
    ensures forall i :: 0 <= i < |trace| - 1 ==> !trace[i].NoPlacement?
    ensures |trace| < budget ==> trace[|trace| - 1].NoPlacement?
    decreases |trace|
  {
    if budget > 0 && !trace[0].NoPlacement? {
      RunShape(step, trace[0].after, trace[1..], budget - 1);
      assert forall i :: 1 <= i < |trace| ==> trace[i] == trace[1..][i - 1];
    }
  }

  /** The record of a box that was not placed: no position, its own extents. */
  function Unpacked(b: SessionBox): BoxRecord {
    BoxRecord(b.id, false, None, b.dims)
  }

  /** The record the loop appends for box `b` after attempt `a`. */
  function RecordOf<S>(b: SessionBox, a: Attempt<S>): BoxRecord {
    if a.Packed? then
      BoxRecord(b.id, true, Some(Point(a.placed.lx, a.placed.ly, a.placed.lz)), Dims(a.placed.x, a.placed.y, a.placed.z))
    else Unpacked(b)
  }

  /** The records of the attempted boxes. */
  function TraceRecords<S>(boxes: seq<SessionBox>, trace: seq<Attempt<S>>): seq<BoxRecord>
    requires |trace| <= |boxes|
  {
    if trace == [] then []
    else TraceRecords(boxes, trace[..|trace| - 1]) + [RecordOf(boxes[|trace| - 1], trace[|trace| - 1])]
  }

  /** The records of boxes never attempted. */
  function UnpackedRecords(boxes: seq<SessionBox>): seq<BoxRecord> {
    seq(|boxes|, i requires 0 <= i < |boxes| => Unpacked(boxes[i]))
  }

  /** The box list of a run's result: attempted boxes, then the rest unpacked. */
  function RecordsOf<S>(boxes: seq<SessionBox>, trace: seq<Attempt<S>>): seq<BoxRecord>
    requires |trace| <= |boxes|
  {
    TraceRecords(boxes, trace) + UnpackedRecords(boxes[|trace|..])
  }

  /** The packing steps of a run: one per placed box, carrying the box's index. */
  function StepsOf<S>(boxes: seq<SessionBox>, trace: seq<Attempt<S>>): seq<PackingStep>
    requires |trace| <= |boxes|
  {
    if trace == [] then []
    else
      var n := |trace| - 1;
      var a := trace[n];
      StepsOf(boxes, trace[..n]) +
        if a.Packed? then [PackingStep(boxes[n].id, Point(a.placed.lx, a.placed.ly, a.placed.lz), Dims(a.placed.x, a.placed.y, a.placed.z), n)]
        else []
  }

  /** The result of a run that ends with utilization `ratio`. */
  function RunResults<S>(boxes: seq<SessionBox>, trace: seq<Attempt<S>>, ratio: real): Results
    requires |trace| <= |boxes|
  {
    var records := RecordsOf(boxes, trace);
    Results(ratio, CountPacked(records), records, StepsOf(boxes, trace))
  }

  /**
   * `r` is the result of running heuristic `h` on `boxes`, starting from the
   * environment `start` (reset first), along `trace`.
   */
  ghost predicate RunOf<S(!new)>(env: Oracle<S>, h: Heuristic, start: S, boxes: seq<SessionBox>,
                                 trace: seq<Attempt<S>>, r: Results) {
    var s0 := env.reset(start);
    && |trace| <= |boxes|
    && Run(Step(env, h, env.binSize(s0), env.binIsInt(s0)), s0, trace, Budget(|boxes|))
    && r == RunResults(boxes, trace, env.ratio(FinalState(s0, trace)))
  }

  /** `r` is a possible result of running heuristic `h` from `start`. */
  ghost predicate Simulated<S(!new)>(env: Oracle<S>, h: Heuristic, start: S, boxes: seq<SessionBox>, r: Results) {
    exists trace :: RunOf(env, h, start, boxes, trace, r)
  }

  lemma {:induction false} CountPackedAppend(a: seq<BoxRecord>, b: seq<BoxRecord>)
    ensures CountPacked(a + b) == CountPacked(a) + CountPacked(b)
    decreases |b|
  {
    if b != [] {
      var n := |b| - 1;
      CountPackedAppend(a, b[..n]);
      assert (a + b)[..|a + b| - 1] == a + b[..n];
      assert (a + b)[|a + b| - 1] == b[n];
      assert CountPacked(a + b) == CountPacked(a + b[..n]) + (if b[n].isPacked then 1 else 0);
    } else {
      assert a + b == a;
    }
  }

  /** A list with no packed record counts no packed box. */
  lemma {:induction false} CountPackedNone(records: seq<BoxRecord>)
    requires forall i :: 0 <= i < |records| ==> !records[i].isPacked
    ensures CountPacked(records) == 0
    decreases |records|
  {
    if records != [] {
      var n := |records| - 1;
      assert forall i :: 0 <= i < n ==> records[..n][i] == records[i];
      CountPackedNone(records[..n]);
    }
  }

  lemma UnpackedRecordsShape(boxes: seq<SessionBox>)
    ensures |UnpackedRecords(boxes)| == |boxes|
    ensures forall i :: 0 <= i < |boxes| ==> UnpackedRecords(boxes)[i] == Unpacked(boxes[i])
    ensures CountPacked(UnpackedRecords(boxes)) == 0
  {
    CountPackedNone(UnpackedRecords(boxes));
  }

  lemma {:induction false} TraceRecordsShape<S>(boxes: seq<SessionBox>, trace: seq<Attempt<S>>)
    requires |trace| <= |boxes|
    ensures |TraceRecords(boxes, trace)| == |trace|
    ensures forall i :: 0 <= i < |trace| ==> TraceRecords(boxes, trace)[i] == RecordOf(boxes[i], trace[i])
  {
    if trace != [] {
      var n := |trace| - 1;
      TraceRecordsShape(boxes, trace[..n]);
    }
  }

  /**
   * The box list of a run has one record per session box, in order: a box is
   * packed exactly when its attempt placed it, and then carries the placed
   * box's lower corner and extents; every other box keeps its own extents and
   * has no position.
   */
  lemma RecordsFaithful<S>(boxes: seq<SessionBox>, trace: seq<Attempt<S>>)
    requires |trace| <= |boxes|
    ensures && |RecordsOf(boxes, trace)| == |boxes|
      && forall i :: 0 <= i < |boxes| ==>
           && RecordsOf(boxes, trace)[i].id == boxes[i].id
           && (RecordsOf(boxes, trace)[i].isPacked <==> RecordsOf(boxes, trace)[i].position.Some?)
           && (RecordsOf(boxes, trace)[i].isPacked <==> i < |trace| && trace[i].Packed?)
           && (!RecordsOf(boxes, trace)[i].isPacked ==> RecordsOf(boxes, trace)[i].dimensions == boxes[i].dims)
           && (RecordsOf(boxes, trace)[i].isPacked ==>
                 RecordsOf(boxes, trace)[i].position == Some(Point(trace[i].placed.lx, trace[i].placed.ly, trace[i].placed.lz)) &&
                 RecordsOf(boxes, trace)[i].dimensions == Dims(trace[i].placed.x, trace[i].placed.y, trace[i].placed.z))
  {
    TraceRecordsShape(boxes, trace);
    UnpackedRecordsShape(boxes[|trace|..]);
  }

  /** The box list of a run packs as many boxes as its attempted part does. */
  lemma RecordsCount<S>(boxes: seq<SessionBox>, trace: seq<Attempt<S>>)
    requires |trace| <= |boxes|
    ensures CountPacked(RecordsOf(boxes, trace)) == CountPacked(TraceRecords(boxes, trace))
  {
    UnpackedRecordsShape(boxes[|trace|..]);
    CountPackedAppend(TraceRecords(boxes, trace), UnpackedRecords(boxes[|trace|..]));
  }

  /**
   * `st` is the packing step of a box its attempt in `trace` placed: it names
   * that box's index, its id, and the placed box's lower corner and extents.
   */
  ghost predicate StepOfPlaced<S>(boxes: seq<SessionBox>, trace: seq<Attempt<S>>, st: PackingStep) {
    var i := st.step;
    && i < |trace| && i < |boxes| && trace[i].Packed?
    && st == PackingStep(boxes[i].id, Point(trace[i].placed.lx, trace[i].placed.ly, trace[i].placed.lz),
                         Dims(trace[i].placed.x, trace[i].placed.y, trace[i].placed.z), i)
  }

  /**
   * Every packing step is the step of a box its attempt placed, and the step
   * indices strictly increase.
   */
  lemma {:induction false} StepsSound<S>(boxes: seq<SessionBox>, trace: seq<Attempt<S>>)
    requires |trace| <= |boxes|
    ensures && (forall k :: 0 <= k < |StepsOf(boxes, trace)| ==> StepOfPlaced(boxes, trace, StepsOf(boxes, trace)[k]))
      && (forall j, k :: 0 <= j < k < |StepsOf(boxes, trace)| ==> StepsOf(boxes, trace)[j].step < StepsOf(boxes, trace)[k].step)
  {
    if trace != [] {
      var n := |trace| - 1;
      StepsSound(boxes, trace[..n]);
      var prev := StepsOf(boxes, trace[..n]);
      var steps := StepsOf(boxes, trace);
      var a := trace[n];
      if a.Packed? {
        assert steps == prev + [PackingStep(boxes[n].id, Point(a.placed.lx, a.placed.ly, a.placed.lz), Dims(a.placed.x, a.placed.y, a.placed.z), n)];
        assert StepOfPlaced(boxes, trace, steps[|prev|]);
      } else {
        assert steps == prev;
      }
      forall k | 0 <= k < |prev|
        ensures steps[k] == prev[k] && prev[k].step < n && StepOfPlaced(boxes, trace, prev[k])
      {
        assert StepOfPlaced(boxes, trace[..n], prev[k]);
        assert trace[..n][prev[k].step] == trace[prev[k].step];
      }
    }
  }

  /** Every box an attempt placed has a packing step. */
  lemma {:induction false} StepsComplete<S>(boxes: seq<SessionBox>, trace: seq<Attempt<S>>)
    requires |trace| <= |boxes|
    ensures forall i :: 0 <= i < |trace| && trace[i].Packed? ==> exists k :: 0 <= k < |StepsOf(boxes, trace)| && StepsOf(boxes, trace)[k].step == i
  {
    if trace != [] {
      var n := |trace| - 1;
      StepsComplete(boxes, trace[..n]);
      var prev := StepsOf(boxes, trace[..n]);
      var steps := StepsOf(boxes, trace);
      var a := trace[n];
      if a.Packed? {
        assert steps == prev + [PackingStep(boxes[n].id, Point(a.placed.lx, a.placed.ly, a.placed.lz), Dims(a.placed.x, a.placed.y, a.placed.z), n)];
        assert steps[|prev|].step == n;
      } else {
        assert steps == prev;
      }
      forall i | 0 <= i < |trace| && trace[i].Packed?
        ensures exists k :: 0 <= k < |StepsOf(boxes, trace)| && StepsOf(boxes, trace)[k].step == i
      {
        if i < n {
          assert trace[..n][i] == trace[i];
          var k :| 0 <= k < |prev| && prev[k].step == i;
          assert steps[k] == prev[k];
          assert 0 <= k < |StepsOf(boxes, trace)| && StepsOf(boxes, trace)[k].step == i;
        } else {
          assert i == n && a.Packed?;
          assert steps[|prev|].step == i;
          assert 0 <= |prev| < |StepsOf(boxes, trace)| && StepsOf(boxes, trace)[|prev|].step == i;
        }
      }
    }
  }

  /** There are exactly as many packing steps as packed records. */
  lemma {:induction false} StepsCount<S>(boxes: seq<SessionBox>, trace: seq<Attempt<S>>)
    requires |trace| <= |boxes|
    ensures |StepsOf(boxes, trace)| == CountPacked(RecordsOf(boxes, trace))
  {
    RecordsCount(boxes, trace);
    StepsCountTrace(boxes, trace);
  }

  lemma {:induction false} StepsCountTrace<S>(boxes: seq<SessionBox>, trace: seq<Attempt<S>>)
    requires |trace| <= |boxes|
    ensures |StepsOf(boxes, trace)| == CountPacked(TraceRecords(boxes, trace))
  {
    if trace != [] {
      var n := |trace| - 1;
      StepsCountTrace(boxes, trace[..n]);
      var rs := TraceRecords(boxes, trace);
      assert rs[..|rs| - 1] == TraceRecords(boxes, trace[..n]);
    }
  }

  /** A run packs at most as many boxes as it attempts, hence at most min(n, 50). */
  lemma PackedCountBounded<S(!new)>(env: Oracle<S>, h: Heuristic, start: S, boxes: seq<SessionBox>,
                                    trace: seq<Attempt<S>>, r: Results)
    requires RunOf(env, h, start, boxes, trace, r)
    ensures r.packedCount <= Budget(|boxes|)
  {
    var s0 := env.reset(start);
    RunShape(Step(env, h, env.binSize(s0), env.binIsInt(s0)), s0, trace, Budget(|boxes|));
    StepsSound(boxes, trace);
    StepsCount(boxes, trace);
    var steps := StepsOf(boxes, trace);
    // The step indices are distinct and below |trace|, so there are at most |trace| of them.
    StrictlyIncreasingBounded(steps, |trace|);
  }

  lemma {:induction false} StrictlyIncreasingBounded(steps: seq<PackingStep>, bound: nat)
    requires forall k :: 0 <= k < |steps| ==> steps[k].step < bound
    requires forall j, k :: 0 <= j < k < |steps| ==> steps[j].step < steps[k].step
    ensures |steps| <= bound
  {
    if steps != [] {
      var n := |steps| - 1;
      StrictlyIncreasingBounded(steps[..n], steps[n].step);
    }
  }

  /** Appending an attempt appends its record, and its step when the box was placed. */
  lemma AppendAttempt<S>(boxes: seq<SessionBox>, trace: seq<Attempt<S>>, a: Attempt<S>)
    requires |trace| < |boxes|
    ensures TraceRecords(boxes, trace + [a]) == TraceRecords(boxes, trace) + [RecordOf(boxes[|trace|], a)]
    ensures StepsOf(boxes, trace + [a]) == StepsOf(boxes, trace) +
      if a.Packed? then [PackingStep(boxes[|trace|].id, Point(a.placed.lx, a.placed.ly, a.placed.lz),
                                     Dims(a.placed.x, a.placed.y, a.placed.z), |trace|)]
      else []
  {
    assert (trace + [a])[..|trace|] == trace;
  }

  /** One box's turn under heuristic `h`. */
  method AttemptBox<S(!new)>(env: Oracle<S>, h: Heuristic, bin: Dims, binIsInt: bool, s: S) returns (out: Attempt<S>)
    ensures Outcome(env, h, bin, binIsInt, s, out)
  {
    match h {
      case CornerHeightDiscrete => out := AttemptCornerHeight(env, s, true);
      case CornerHeightContinuous => out := AttemptCornerHeight(env, s, false);
      case RandomHeuristic => out := AttemptRandom(env, s, bin, binIsInt);
    }
  }

  /**
   * One turn of the packing loop: attempt box |trace| from state `s`, append
   * its record (and its step when it was packed), and report whether the
   * attempt found no placement, which ends the search.
   */
  method AttemptNext<S(!new)>(env: Oracle<S>, h: Heuristic, bin: Dims, binIsInt: bool, boxes: seq<SessionBox>,
                              i: nat, budget: nat, ghost s0: S, s: S, ghost trace: seq<Attempt<S>>,
                              records: seq<BoxRecord>, steps: seq<PackingStep>)
    returns (s': S, ghost trace': seq<Attempt<S>>, records': seq<BoxRecord>, steps': seq<PackingStep>, done: bool)
    requires i == |trace| < |boxes| && i < budget
    requires Reaches(Step(env, h, bin, binIsInt), s0, trace, s)
    requires records == TraceRecords(boxes, trace) && steps == StepsOf(boxes, trace)
    ensures |trace'| == |trace| + 1 && trace'[..|trace|] == trace
    ensures records' == TraceRecords(boxes, trace') && steps' == StepsOf(boxes, trace')
    ensures done <==> trace'[|trace|].NoPlacement?
    ensures !done ==> Reaches(Step(env, h, bin, binIsInt), s0, trace', s')
    ensures done ==> s' == s && Run(Step(env, h, bin, binIsInt), s0, trace', budget) && FinalState(s0, trace') == s
  {
    var out := AttemptBox(env, h, bin, binIsInt, s);
    var box := boxes[i];
    AppendAttempt(boxes, trace, out);
    trace' := trace + [out];
    assert trace'[..i] == trace;
    s', done := s, false;
    match out {
      case Packed(after, p) =>
        records' := records + [BoxRecord(box.id, true, Some(Point(p.lx, p.ly, p.lz)), Dims(p.x, p.y, p.z))];
        steps' := steps + [PackingStep(box.id, Point(p.lx, p.ly, p.lz), Dims(p.x, p.y, p.z), i)];
        ReachesExtend(Step(env, h, bin, binIsInt), s0, trace, s, out);
        s' := after;
      case NotPlaced(after) =>
        records', steps' := records + [Unpacked(box)], steps;
        ReachesExtend(Step(env, h, bin, binIsInt), s0, trace, s, out);
        s' := after;
      case NoPlacement =>
        records', steps' := records + [Unpacked(box)], steps;
        StoppedRun(Step(env, h, bin, binIsInt), s0, trace', s, budget);
        done := true;
      case Faulted(after) =>
        // The loop's exception handler records the box as unpacked and moves on.
        records', steps' := records + [Unpacked(box)], steps;
        ReachesExtend(Step(env, h, bin, binIsInt), s0, trace, s, out);
        s' := after;
    }
  }

  /**
   * The attempt loop: boxes in order from the reset state `s0`, until the
   * budget is spent or an attempt finds no placement. `n` boxes were attempted.
   */
  method AttemptBoxes<S(!new)>(env: Oracle<S>, h: Heuristic, bin: Dims, binIsInt: bool, boxes: seq<SessionBox>, s0: S)
    returns (s: S, ghost trace: seq<Attempt<S>>, records: seq<BoxRecord>, steps: seq<PackingStep>, n: nat)
    ensures n == |trace| <= Budget(|boxes|)
    ensures Run(Step(env, h, bin, binIsInt), s0, trace, Budget(|boxes|))
    ensures s == FinalState(s0, trace)
    ensures records == TraceRecords(boxes, trace) && steps == StepsOf(boxes, trace)
  {
    var budget := Budget(|boxes|);
    ghost var step := Step(env, h, bin, binIsInt);
    s, records, steps := s0, [], [];
    trace := [];
    n := 0;
    while n < budget
      invariant n <= budget && |trace| == n
      invariant records == TraceRecords(boxes, trace) && steps == StepsOf(boxes, trace)
      invariant Reaches(step, s0, trace, s)
    {
      var s', records', steps', stop;
      ghost var trace';
      s', trace', records', steps', stop := AttemptNext(env, h, bin, binIsInt, boxes, n, budget, s0, s, trace, records, steps);
      if stop {
        return s, trace', records', steps', n + 1;
      }
      s, trace, records, steps, n := s', trace', records', steps', n + 1;
    }
    FullRun(step, s0, trace, s);
  }

  /** The loop that records every box from index `from` on as unpacked. */
  method RecordRemaining(boxes: seq<SessionBox>, from: nat, records: seq<BoxRecord>) returns (out: seq<BoxRecord>)
    requires from <= |boxes|
    ensures out == records + UnpackedRecords(boxes[from..])
  {
    out := records;
    var i := from;
    while i < |boxes|
      invariant from <= i <= |boxes|
      invariant out == records + UnpackedRecords(boxes[from..i])
    {
      assert UnpackedRecords(boxes[from..i + 1]) == UnpackedRecords(boxes[from..i]) + [Unpacked(boxes[i])];
      out := out + [Unpacked(boxes[i])];
      i := i + 1;
    }
    assert boxes[from..i] == boxes[from..];
  }

  // ---------------------------------------------------------------------------
  // The engine object
  // ---------------------------------------------------------------------------

  /**
   * The engine of one session. `envState` is the environment (None before a
   * successful setup); `oracle` stands for the environment classes and
   * `packingAvailable` for whether they could be imported.
   */
  class PackingEngine<S(!new)> {
    const oracle: Oracle<S>
    const packingAvailable: bool
    var session: Session
    var envState: Option<S>
    var isDiscrete: bool
    var results: Results

    constructor(session: Session, oracle: Oracle<S>, packingAvailable: bool)
      ensures this.session == session && this.oracle == oracle && this.packingAvailable == packingAvailable
      ensures envState == None && isDiscrete && results == NoResults
    {
      this.session := session;
      this.oracle := oracle;
      this.packingAvailable := packingAvailable;
      envState := None;
      isDiscrete := true;
      results := NoResults;
    }

    /**
     * Decide the packing mode and create the environment. Without the
     * environment classes nothing changes and setup fails; otherwise discrete
     * mode is cleared unless the pallet and all items are whole-numbered, and
     * setup succeeds exactly when the environment's constructor does.
     */
    method SetupEnvironment() returns (ok: bool)
      modifies this
      ensures session == old(session) && results == old(results)
      ensures !packingAvailable ==> !ok && envState == old(envState) && isDiscrete == old(isDiscrete)
      ensures packingAvailable ==> isDiscrete == (old(isDiscrete) && DiscreteMode(session))
      ensures packingAvailable ==>
        var created := oracle.create(isDiscrete, session.rotation, session.pallet, ItemSet(session.boxes));
        ok == created.Some? && envState == (if ok then created else old(envState))
    {
      if !packingAvailable {
        return false;
      }
      if !AllIntegral(session.pallet) {
        isDiscrete := false;
      }
      var boxes := session.boxes;
      var items: seq<Dims> := [];
      for i := 0 to |boxes|
        invariant items == seq(i, j requires 0 <= j < i => boxes[j].dims)
      {
        items := items + [boxes[i].dims];
      }
      if items == [] {
        items := DefaultItems;
      }
      assert items == ItemSet(session.boxes);
      var k := 0;
      while k < |items|
        invariant 0 <= k <= |items|
        invariant forall m :: 0 <= m < k ==> AllIntegral(items[m])
        invariant isDiscrete == (old(isDiscrete) && AllIntegral(session.pallet))
      {
        if !AllIntegral(items[k]) {
          isDiscrete := false;
          break;
        }
        k := k + 1;
      }
      var created := oracle.create(isDiscrete, session.rotation, session.pallet, items);
      if created.None? {
        return false;
      }
      envState := created;
      ok := true;
    }

    /** Run the session: the fallback when setup fails, else the dispatched heuristic. */
    method RunSimulation() returns (r: Results)
      modifies this
      ensures session == old(session)
      ensures !packingAvailable ==> r == Fallback(session)
      ensures packingAvailable ==>
        && isDiscrete == (old(isDiscrete) && DiscreteMode(session))
        && var created := oracle.create(isDiscrete, session.rotation, session.pallet, ItemSet(session.boxes));
           && (created.None? ==> r == Fallback(session))
           && (created.Some? ==> Simulated(oracle, Dispatch(session.algorithm, isDiscrete), created.value, session.boxes, r))
    {
      var ok := SetupEnvironment();
      if !ok {
        r := CreateFallbackResults();
        return;
      }
      ghost var trace;
      if session.algorithm == "corner_height" {
        if isDiscrete {
          r, trace := RunCornerHeight();
        } else {
          r, trace := RunCornerHeightContinuous();
        }
      } else if session.algorithm == "random" {
        r, trace := RunRandom();
      } else {
        if isDiscrete {
          r, trace := RunCornerHeight();
        } else {
          r, trace := RunCornerHeightContinuous();
        }
      }
    }

    /** Build the fallback result; it changes nothing. */
    method CreateFallbackResults() returns (r: Results)
      ensures r == Fallback(session)
    {
      var boxes := session.boxes;
      var pc := FallbackCount(|boxes|);
      var records := FallbackRecordList(boxes, pc);
      var pv := session.pallet.x * session.pallet.y * session.pallet.z;
      var utilization := 0.0;
      if pv > 0.0 {
        utilization := TotalVolume(boxes[..pc]) / pv;
        if utilization >= 1.0 {
          utilization := 1.0;
        }
      }
      r := Results(utilization, pc, records, []);
    }

    /** The corner-height run of discrete mode (virtual drops with the trailing flags). */
    method RunCornerHeight() returns (r: Results, ghost trace: seq<Attempt<S>>)
      requires envState.Some?
      modifies this
      ensures RunOf(oracle, CornerHeightDiscrete, old(envState).value, old(session).boxes, trace, r)
      ensures envState == Some(FinalState(oracle.reset(old(envState).value), trace)) && results == r
      ensures session == old(session) && isDiscrete == old(isDiscrete)
    {
      r, trace := PackSession(CornerHeightDiscrete);
    }

    /** The corner-height run of continuous mode (virtual drops without the trailing flags). */
    method RunCornerHeightContinuous() returns (r: Results, ghost trace: seq<Attempt<S>>)
      requires envState.Some?
      modifies this
      ensures RunOf(oracle, CornerHeightContinuous, old(envState).value, old(session).boxes, trace, r)
      ensures envState == Some(FinalState(oracle.reset(old(envState).value), trace)) && results == r
      ensures session == old(session) && isDiscrete == old(isDiscrete)
    {
      r, trace := PackSession(CornerHeightContinuous);
    }

    /** The random-placement run. */
    method RunRandom() returns (r: Results, ghost trace: seq<Attempt<S>>)
      requires envState.Some?
      modifies this
      ensures RunOf(oracle, RandomHeuristic, old(envState).value, old(session).boxes, trace, r)
      ensures envState == Some(FinalState(oracle.reset(old(envState).value), trace)) && results == r
      ensures session == old(session) && isDiscrete == old(isDiscrete)
    {
      r, trace := PackSession(RandomHeuristic);
    }

    /**
     * The packing loop the three runs share: reset the environment, attempt
     * boxes in order until the budget is spent or an attempt finds no
     * placement, record the remaining boxes as unpacked, and read the
     * utilization from the final state. `trace` is the sequence of attempts.
     */
    method PackSession(h: Heuristic) returns (r: Results, ghost trace: seq<Attempt<S>>)
      requires envState.Some?
      modifies this
      ensures RunOf(oracle, h, old(envState).value, old(session).boxes, trace, r)
      ensures envState == Some(FinalState(oracle.reset(old(envState).value), trace)) && results == r
      ensures session == old(session) && isDiscrete == old(isDiscrete)
      ensures oracle.RatioBounded() ==> 0.0 <= r.utilization <= 1.0
    {
      var s0 := oracle.reset(envState.value);
      var bin, binIsInt := oracle.binSize(s0), oracle.binIsInt(s0);
      var boxes := session.boxes;
      var s, records, steps, i;
      s, trace, records, steps, i := AttemptBoxes(oracle, h, bin, binIsInt, boxes, s0);
      records := RecordRemaining(boxes, i, records);
      var ratio := oracle.ratio(s);
      r := Results(ratio, CountPacked(records), records, steps);
      envState := Some(s);
      results := r;
    }
  }
}
