/**
  `check_run` as a function: every mesh, in registry order, goes through the
  six stages in the explicit order below, each stage called twice with the
  second call's result kept; the results go into one list that ends with a
  summary result. An exception escaping a stage ends the run.

  The sweeps take the stage runner as a parameter, as `check_run` calls the
  checks it finds by name; `Checks` is the runner of this checker.
*/
module Orchestrator {
  import opened Wrappers
  import opened DatasetView
  import opened Conventions
  import opened Results
  import opened MeshContext
  import opened Stages
  import opened StageProps

  datatype Stage = TopologyDimStage | ConnectivityStage | NodeCoordsStage
                 | EdgeFaceStage | FaceEdgeStage | FaceFaceStage

  /** The explicit stage order, replacing discovery by sorted name (checker.py:321-325). */
  const StageOrder: seq<Stage> :=
    [TopologyDimStage, ConnectivityStage, NodeCoordsStage, EdgeFaceStage, FaceEdgeStage, FaceFaceStage]

  function StageDesc(s: Stage): Description
  {
    match s
    case TopologyDimStage => TopologyDimDesc
    case ConnectivityStage => ConnectivityDesc
    case NodeCoordsStage => NodeCoordsDesc
    case EdgeFaceStage => EdgeFaceDesc
    case FaceEdgeStage => FaceEdgeDesc
    case FaceFaceStage => FaceFaceDesc
  }

  /** One stage on one mesh: its result and the context it leaves. */
  function RunStage(ds: Dataset, mesh: Mesh, ctx: Context, s: Stage): (r: Run<CheckResult>)
    ensures r.outcome.Done? ==> r.outcome.value.description == StageDesc(s)
    ensures r.outcome.Done? ==> r.outcome.value.score <= r.outcome.value.outOf
    ensures r.ctx.raw == ctx.raw
  {
    match s
    case TopologyDimStage => Run(Done(TopologyDim(ctx)), ctx)
    case ConnectivityStage => ConnectivityAttrs(ds, mesh, ctx)
    case NodeCoordsStage => NodeCoordsExist(ds, mesh, ctx)
    case EdgeFaceStage => Run(EdgeFaceConn(ds, mesh, ctx), ctx)
    case FaceEdgeStage => Run(FaceEdgeConn(ds, mesh, ctx), ctx)
    case FaceFaceStage => Run(FaceFaceConn(ds, mesh, ctx), ctx)
  }

  /**
    Calling a stage a second time on the context its first call left gives the
    same result and the same context, so keeping only the second call's result
    (checker.py:313-314) is the same as calling it once.
  */
  lemma StageRerun(ds: Dataset, mesh: Mesh, ctx: Context, s: Stage)
    requires RunStage(ds, mesh, ctx, s).outcome.Done?
    ensures RunStage(ds, mesh, RunStage(ds, mesh, ctx, s).ctx, s) == RunStage(ds, mesh, ctx, s)
  {
    match s
    case ConnectivityStage => ConnectivityRerun(ds, mesh, ctx);
    case NodeCoordsStage => NodeCoordsRerun(ds, mesh, ctx);
    case _ =>
  }

  /** What calling one check on one mesh gives, from the context the call reads. */
  type Runner = (Mesh, Context, Stage) -> Run<CheckResult>

  /** `StageRerun` for every stage, mesh and context at once. */
  lemma RunStageStable(ds: Dataset)
    ensures forall mesh, ctx, s :: RunStage(ds, mesh, ctx, s).outcome.Done? ==>
      RunStage(ds, mesh, RunStage(ds, mesh, ctx, s).ctx, s) == RunStage(ds, mesh, ctx, s)
  {
    forall mesh, ctx, s | RunStage(ds, mesh, ctx, s).outcome.Done?
      ensures RunStage(ds, mesh, RunStage(ds, mesh, ctx, s).ctx, s) == RunStage(ds, mesh, ctx, s)
    {
      StageRerun(ds, mesh, ctx, s);
    }
  }

  /**
    The checks of this checker, which checker.py:321-325 finds by name: every
    result carries its own stage's description, and a second call on the
    context the first left repeats the first.
  */
  function Checks(ds: Dataset): (run: Runner)
    ensures Describes(run)
    ensures Stable(run)
  {
    RunStageStable(ds);
    (mesh, ctx, s) => RunStage(ds, mesh, ctx, s)
  }

  /** Every result a runner produces carries the description of its stage. */
  ghost predicate Describes(run: Runner)
  {
    forall mesh, ctx, s :: run(mesh, ctx, s).outcome.Done? ==>
      run(mesh, ctx, s).outcome.value.description == StageDesc(s)
  }

  /**
    The remaining stages for one mesh, appending to the run's result list; each
    stage is called twice and the second call's result kept (checker.py:313-314).
  */
  function StageSweep(run: Runner, mesh: Mesh, acc: seq<CheckResult>, ctx: Context, ss: seq<Stage>)
    : (r: Run<seq<CheckResult>>)
    ensures r.outcome.Done? ==> |r.outcome.value| == |acc| + |ss|
    decreases |ss|
  {
    if ss == [] then Run(Done(acc), ctx)
    else
      var first := run(mesh, ctx, ss[0]);
      if first.outcome.Raised? then Run(Raised(first.outcome.fault), first.ctx)
      else
        var second := run(mesh, first.ctx, ss[0]);
        match second.outcome
        case Raised(f) => Run(Raised(f), second.ctx)
        case Done(res) => StageSweep(run, mesh, acc + [res], second.ctx, ss[1..])
  }

  /** One step of the sweep, for a stage list written out as a literal. */
  lemma SweepStep(run: Runner, mesh: Mesh, acc: seq<CheckResult>, ctx: Context, s: Stage, rest: seq<Stage>)
    ensures var first := run(mesh, ctx, s);
      var second := run(mesh, first.ctx, s);
      StageSweep(run, mesh, acc, ctx, [s] + rest) ==
        if first.outcome.Raised? then Run(Raised(first.outcome.fault), first.ctx)
        else if second.outcome.Raised? then Run(Raised(second.outcome.fault), second.ctx)
        else StageSweep(run, mesh, acc + [second.outcome.value], second.ctx, rest)
  {
    assert ([s] + rest)[1..] == rest;
  }

  /** All six stages on one mesh, on their own. */
  function RunMesh(run: Runner, mesh: Mesh, ctx: Context): Run<seq<CheckResult>>
  {
    StageSweep(run, mesh, [], ctx, StageOrder)
  }

  /** The outcome of the run so far and the registry it leaves. */
  datatype Sweep = Sweep(outcome: Outcome<seq<CheckResult>>, meshes: map<Mesh, Context>)

  /** The outer loop of checker.py:311-314 over the remaining meshes. */
  function MeshSweep(run: Runner, acc: seq<CheckResult>, meshes: map<Mesh, Context>, ms: seq<Mesh>): (r: Sweep)
    requires forall m :: m in ms ==> m in meshes
    ensures r.meshes.Keys == meshes.Keys
    decreases |ms|
  {
    if ms == [] then Sweep(Done(acc), meshes)
    else
      var mesh := ms[0];
      var stages := StageSweep(run, mesh, acc, meshes[mesh], StageOrder);
      var updated := meshes[mesh := stages.ctx];
      match stages.outcome
      case Raised(f) => Sweep(Raised(f), updated)
      case Done(rs) => MeshSweep(run, rs, updated, ms[1..])
  }

  /** The summary result appended after the meshes (checker.py:302-310, 318). */
  const Summary: CheckResult := CheckResult(High, 1, 1, RunDesc, [])

  /** The only result when no mesh was discovered (checker.py:315-318). */
  const NoMeshesResult: CheckResult := CheckResult(High, 0, 1, RunDesc, [NoMeshes])

  /** No mesh is listed twice. */
  ghost predicate Distinct(ms: seq<Mesh>)
  {
    forall i, j :: 0 <= i < j < |ms| ==> ms[i] != ms[j]
  }

  /** `order` lists every registered mesh exactly once: the dictionary's iteration order. */
  ghost predicate Registry(meshes: map<Mesh, Context>, order: seq<Mesh>)
  {
    (forall m :: m in order <==> m in meshes) && Distinct(order)
  }

  /** `check_run` with the given stage runner. */
  function CheckRun(run: Runner, meshes: map<Mesh, Context>, order: seq<Mesh>): (r: Sweep)
    requires forall m :: m in order ==> m in meshes
    ensures r.meshes.Keys == meshes.Keys
    ensures |meshes| == 0 ==> r == Sweep(Done([NoMeshesResult]), meshes)
    ensures r.outcome.Done? ==> |r.outcome.value| >= 1
    ensures |meshes| != 0 && r.outcome.Done? ==> r.outcome.value[|r.outcome.value| - 1] == Summary
  {
    if |meshes| == 0 then Sweep(Done([NoMeshesResult]), meshes)
    else
      var sweep := MeshSweep(run, [], meshes, order);
      match sweep.outcome
      case Raised(_) => sweep
      case Done(rs) => Sweep(Done(rs + [Summary]), sweep.meshes)
  }

  // ----- Lemmas -----

  /** The results already collected are carried through a mesh's stages untouched. */
  lemma {:induction false} StageSweepShift(run: Runner, mesh: Mesh, acc: seq<CheckResult>, ctx: Context, ss: seq<Stage>)
    ensures var shifted := StageSweep(run, mesh, acc, ctx, ss);
      var alone := StageSweep(run, mesh, [], ctx, ss);
      && shifted.ctx == alone.ctx
      && shifted.outcome.Raised? == alone.outcome.Raised?
      && (alone.outcome.Raised? ==> shifted.outcome == alone.outcome)
      && (alone.outcome.Done? ==> shifted.outcome.value == acc + alone.outcome.value)
    decreases |ss|
  {
    if ss != [] {
      var first := run(mesh, ctx, ss[0]);
      var second := run(mesh, first.ctx, ss[0]);
      if first.outcome.Done? && second.outcome.Done? {
        var res := second.outcome.value;
        assert [] + [res] == [res];
        StageSweepShift(run, mesh, acc + [res], second.ctx, ss[1..]);
        StageSweepShift(run, mesh, [res], second.ctx, ss[1..]);
        var alone := StageSweep(run, mesh, [], second.ctx, ss[1..]);
        if alone.outcome.Done? {
          assert acc + [res] + alone.outcome.value == acc + ([res] + alone.outcome.value);
        }
      }
    }
  }

  /** A completed sweep adds one result per stage, each carrying that stage's description. */
  lemma {:induction false} StageSweepOrder(run: Runner, mesh: Mesh, acc: seq<CheckResult>, ctx: Context, ss: seq<Stage>)
    requires Describes(run)
    requires StageSweep(run, mesh, acc, ctx, ss).outcome.Done?
    ensures var rs := StageSweep(run, mesh, acc, ctx, ss).outcome.value;
      forall k :: 0 <= k < |ss| ==> rs[|acc| + k].description == StageDesc(ss[k])
    decreases |ss|
  {
    if ss != [] {
      var first := run(mesh, ctx, ss[0]);
      var second := run(mesh, first.ctx, ss[0]);
      var acc' := acc + [second.outcome.value];
      StageSweepOrder(run, mesh, acc', second.ctx, ss[1..]);
      var rs := StageSweep(run, mesh, acc, ctx, ss).outcome.value;
      assert rs == StageSweep(run, mesh, acc', second.ctx, ss[1..]).outcome.value;
      StageSweepShift(run, mesh, acc', second.ctx, ss[1..]);
      forall k | 0 <= k < |ss| ensures rs[|acc| + k].description == StageDesc(ss[k]) {
        if k == 0 {
          assert rs[|acc|] == acc'[|acc|];
        } else {
          assert rs[|acc'| + (k - 1)].description == StageDesc(ss[1..][k - 1]);
        }
      }
    }
  }

  /** One mesh yields six results, in stage order 1 to 6. */
  lemma RunMeshOrder(run: Runner, mesh: Mesh, ctx: Context)
    requires Describes(run)
    requires RunMesh(run, mesh, ctx).outcome.Done?
    ensures var rs := RunMesh(run, mesh, ctx).outcome.value;
      |rs| == 6 && forall k :: 0 <= k < 6 ==> rs[k].description == StageDesc(StageOrder[k])
  {
    StageSweepOrder(run, mesh, [], ctx, StageOrder);
  }

  /** The per-mesh results, each mesh run on its own context from the registry as given. */
  function Blocks(run: Runner, meshes: map<Mesh, Context>, ms: seq<Mesh>): Outcome<seq<CheckResult>>
    requires forall m :: m in ms ==> m in meshes
    decreases |ms|
  {
    if ms == [] then Done([])
    else
      match RunMesh(run, ms[0], meshes[ms[0]]).outcome
      case Raised(f) => Raised(f)
      case Done(rs) =>
        match Blocks(run, meshes, ms[1..])
        case Raised(f) => Raised(f)
        case Done(rest) => Done(rs + rest)
  }

  /** Blocks only look at the listed meshes' contexts. */
  lemma {:induction false} BlocksFrame(run: Runner, m1: map<Mesh, Context>, m2: map<Mesh, Context>, ms: seq<Mesh>)
    requires forall m :: m in ms ==> m in m1 && m in m2 && m1[m] == m2[m]
    ensures Blocks(run, m1, ms) == Blocks(run, m2, ms)
    decreases |ms|
  {
    if ms != [] {
      BlocksFrame(run, m1, m2, ms[1..]);
    }
  }

  /** Updating the first mesh's context leaves the rest of a distinct list as it was. */
  lemma TailUnaffected(meshes: map<Mesh, Context>, ms: seq<Mesh>, c: Context)
    requires ms != [] && Distinct(ms)
    requires forall m :: m in ms ==> m in meshes
    ensures Distinct(ms[1..])
    ensures forall m :: m in ms[1..] ==> m in meshes[ms[0] := c] && meshes[ms[0] := c][m] == meshes[m]
  {
    forall m | m in ms[1..] ensures m != ms[0] {
      var j :| 0 <= j < |ms[1..]| && ms[1..][j] == m;
      assert ms[j + 1] == m;
    }
    forall i, j | 0 <= i < j < |ms[1..]| ensures ms[1..][i] != ms[1..][j] {
      assert ms[1..][i] == ms[i + 1] && ms[1..][j] == ms[j + 1];
    }
  }

  /** Results collected before, followed by an outcome's results; a fault stays a fault. */
  function After(acc: seq<CheckResult>, o: Outcome<seq<CheckResult>>): (r: Outcome<seq<CheckResult>>)
    ensures r.Raised? <==> o.Raised?
    ensures r.Raised? ==> r == o
    ensures r.Done? ==> |r.value| == |acc| + |o.value| && r.value[..|acc|] == acc && r.value[|acc|..] == o.value
  {
    match o
    case Raised(f) => Raised(f)
    case Done(rs) => Done(acc + rs)
  }

  /** `MeshesIndependent`, when the first mesh raises. */
  lemma IndependentRaised(run: Runner, acc: seq<CheckResult>, meshes: map<Mesh, Context>, ms: seq<Mesh>)
    requires ms != []
    requires forall m :: m in ms ==> m in meshes
    requires StageSweep(run, ms[0], acc, meshes[ms[0]], StageOrder).outcome.Raised?
    ensures MeshSweep(run, acc, meshes, ms).outcome == After(acc, Blocks(run, meshes, ms))
  {
    StageSweepShift(run, ms[0], acc, meshes[ms[0]], StageOrder);
  }

  /** Prefixing results in two steps is prefixing their concatenation. */
  lemma AfterAfter(acc: seq<CheckResult>, xs: seq<CheckResult>, o: Outcome<seq<CheckResult>>)
    ensures After(acc + xs, o) == After(acc, After(xs, o))
  {
    if o.Done? {
      assert acc + xs + o.value == acc + (xs + o.value);
    }
  }

  /** `MeshesIndependent`, when the first mesh completes. */
  lemma IndependentDone(run: Runner, acc: seq<CheckResult>, meshes: map<Mesh, Context>, ms: seq<Mesh>)
    requires ms != []
    requires forall m :: m in ms ==> m in meshes
    requires var stages := StageSweep(run, ms[0], acc, meshes[ms[0]], StageOrder);
      && stages.outcome.Done?
      && (forall m :: m in ms[1..] ==> m in meshes[ms[0] := stages.ctx])
      && MeshSweep(run, stages.outcome.value, meshes[ms[0] := stages.ctx], ms[1..]).outcome
         == After(stages.outcome.value, Blocks(run, meshes, ms[1..]))
    ensures MeshSweep(run, acc, meshes, ms).outcome == After(acc, Blocks(run, meshes, ms))
  {
    var mesh := ms[0];
    var stages := StageSweep(run, mesh, acc, meshes[mesh], StageOrder);
    var alone := RunMesh(run, mesh, meshes[mesh]).outcome;
    var rest := Blocks(run, meshes, ms[1..]);
    StageSweepShift(run, mesh, acc, meshes[mesh], StageOrder);
    assert alone.Done? && stages.outcome.value == acc + alone.value;
    assert MeshSweep(run, acc, meshes, ms).outcome == After(acc + alone.value, rest);
    assert Blocks(run, meshes, ms) == After(alone.value, rest);
    AfterAfter(acc, alone.value, rest);
  }

  /**
    Meshes do not affect one another: threading the registry through the
    meshes in turn gives the results of running each mesh on its own.
  */
  lemma {:induction false} MeshesIndependent(run: Runner, acc: seq<CheckResult>, meshes: map<Mesh, Context>, ms: seq<Mesh>)
    requires forall m :: m in ms ==> m in meshes
    requires Distinct(ms)
    ensures MeshSweep(run, acc, meshes, ms).outcome == After(acc, Blocks(run, meshes, ms))
    decreases |ms|
  {
    if ms == [] {
      assert acc + [] == acc;
    } else {
      var stages := StageSweep(run, ms[0], acc, meshes[ms[0]], StageOrder);
      if stages.outcome.Done? {
        var updated := meshes[ms[0] := stages.ctx];
        TailUnaffected(meshes, ms, stages.ctx);
        MeshesIndependent(run, stages.outcome.value, updated, ms[1..]);
        BlocksFrame(run, updated, meshes, ms[1..]);
      }
      if stages.outcome.Raised? {
        IndependentRaised(run, acc, meshes, ms);
      } else {
        IndependentDone(run, acc, meshes, ms);
      }
    }
  }

  /** Results in stage order, one block of six after another. */
  ghost predicate InStageOrder(rs: seq<CheckResult>)
  {
    forall j :: 0 <= j < |rs| ==> rs[j].description == StageDesc(StageOrder[j % 6])
  }

  /** A block of six in stage order followed by whole blocks in stage order. */
  lemma StageOrderConcat(head: seq<CheckResult>, rest: seq<CheckResult>)
    requires |head| == 6 && forall k :: 0 <= k < 6 ==> head[k].description == StageDesc(StageOrder[k])
    requires InStageOrder(rest)
    ensures InStageOrder(head + rest)
  {
    var rs := head + rest;
    forall j | 0 <= j < |rs| ensures rs[j].description == StageDesc(StageOrder[j % 6]) {
      if j >= 6 {
        assert rs[j] == rest[j - 6];
        assert (j - 6) % 6 == j % 6;
      } else {
        assert rs[j] == head[j];
      }
    }
  }

  /** Completed blocks are the first mesh's results followed by the rest's. */
  lemma BlocksCons(run: Runner, meshes: map<Mesh, Context>, ms: seq<Mesh>)
    requires ms != [] && forall m :: m in ms ==> m in meshes
    requires Blocks(run, meshes, ms).Done?
    ensures RunMesh(run, ms[0], meshes[ms[0]]).outcome.Done? && Blocks(run, meshes, ms[1..]).Done?
    ensures Blocks(run, meshes, ms).value ==
      RunMesh(run, ms[0], meshes[ms[0]]).outcome.value + Blocks(run, meshes, ms[1..]).value
  {
  }

  /** The results of all meshes: six per mesh, in stage order. */
  lemma {:induction false} BlocksShape(run: Runner, meshes: map<Mesh, Context>, ms: seq<Mesh>)
    requires Describes(run)
    requires forall m :: m in ms ==> m in meshes
    requires Blocks(run, meshes, ms).Done?
    ensures var rs := Blocks(run, meshes, ms).value;
      |rs| == 6 * |ms| && InStageOrder(rs)
    decreases |ms|
  {
    if ms != [] {
      BlocksCons(run, meshes, ms);
      RunMeshOrder(run, ms[0], meshes[ms[0]]);
      BlocksShape(run, meshes, ms[1..]);
      StageOrderConcat(RunMesh(run, ms[0], meshes[ms[0]]).outcome.value, Blocks(run, meshes, ms[1..]).value);
    }
  }

  /**
    The shape of `check_run`'s answer with meshes present: six results per
    mesh, in stage order 1 to 6, each mesh's block equal to running that mesh
    alone, followed by the summary result scored 1 of 1.
  */
  lemma CheckRunShape(run: Runner, meshes: map<Mesh, Context>, order: seq<Mesh>)
    requires Describes(run)
    requires Registry(meshes, order) && |meshes| != 0
    requires CheckRun(run, meshes, order).outcome.Done?
    ensures Blocks(run, meshes, order).Done?
    ensures var rs := CheckRun(run, meshes, order).outcome.value;
      && |rs| == 6 * |order| + 1
      && rs[6 * |order|] == Summary
      && rs[..6 * |order|] == Blocks(run, meshes, order).value
      && forall j :: 0 <= j < 6 * |order| ==> rs[j].description == StageDesc(StageOrder[j % 6])
  {
    MeshesIndependent(run, [], meshes, order);
    assert [] + Blocks(run, meshes, order).value == Blocks(run, meshes, order).value;
    BlocksShape(run, meshes, order);
    var rs := CheckRun(run, meshes, order).outcome.value;
    var blocks := Blocks(run, meshes, order).value;
    assert rs == blocks + [Summary];
    assert rs[..6 * |order|] == blocks;
    forall j | 0 <= j < 6 * |order| ensures rs[j].description == StageDesc(StageOrder[j % 6]) {
      assert rs[j] == blocks[j];
    }
  }

  /** The stages for one mesh, each called once. */
  function SingleSweep(run: Runner, mesh: Mesh, acc: seq<CheckResult>, ctx: Context, ss: seq<Stage>)
    : Run<seq<CheckResult>>
    decreases |ss|
  {
    if ss == [] then Run(Done(acc), ctx)
    else
      var step := run(mesh, ctx, ss[0]);
      match step.outcome
      case Raised(f) => Run(Raised(f), step.ctx)
      case Done(res) => SingleSweep(run, mesh, acc + [res], step.ctx, ss[1..])
  }

  /** A second call of any stage on the context its first call left repeats the first. */
  ghost predicate Stable(run: Runner)
  {
    forall mesh, ctx, s :: run(mesh, ctx, s).outcome.Done? ==> run(mesh, run(mesh, ctx, s).ctx, s) == run(mesh, ctx, s)
  }

  /** For a stable runner, calling each stage twice and keeping the second result is calling it once. */
  lemma {:induction false} StableSweep(run: Runner, mesh: Mesh, acc: seq<CheckResult>, ctx: Context, ss: seq<Stage>)
    requires Stable(run)
    ensures StageSweep(run, mesh, acc, ctx, ss) == SingleSweep(run, mesh, acc, ctx, ss)
    decreases |ss|
  {
    if ss != [] {
      var step := run(mesh, ctx, ss[0]);
      if step.outcome.Done? {
        StableSweep(run, mesh, acc + [step.outcome.value], step.ctx, ss[1..]);
      }
    }
  }

  /** The six stages in order, each called once, written out. */
  function SixCalls(run: Runner, mesh: Mesh, ctx: Context): Run<seq<CheckResult>>
  {
    var r1 := run(mesh, ctx, TopologyDimStage);
    if r1.outcome.Raised? then Run(Raised(r1.outcome.fault), r1.ctx) else
    var r2 := run(mesh, r1.ctx, ConnectivityStage);
    if r2.outcome.Raised? then Run(Raised(r2.outcome.fault), r2.ctx) else
    var r3 := run(mesh, r2.ctx, NodeCoordsStage);
    if r3.outcome.Raised? then Run(Raised(r3.outcome.fault), r3.ctx) else
    var r4 := run(mesh, r3.ctx, EdgeFaceStage);
    if r4.outcome.Raised? then Run(Raised(r4.outcome.fault), r4.ctx) else
    var r5 := run(mesh, r4.ctx, FaceEdgeStage);
    if r5.outcome.Raised? then Run(Raised(r5.outcome.fault), r5.ctx) else
    var r6 := run(mesh, r5.ctx, FaceFaceStage);
    if r6.outcome.Raised? then Run(Raised(r6.outcome.fault), r6.ctx) else
    Run(Done([r1.outcome.value, r2.outcome.value, r3.outcome.value,
              r4.outcome.value, r5.outcome.value, r6.outcome.value]), r6.ctx)
  }

  /** One step of the single-call sweep, for a stage list written out as a literal. */
  lemma SingleStep(run: Runner, mesh: Mesh, acc: seq<CheckResult>, ctx: Context, s: Stage, rest: seq<Stage>)
    ensures var step := run(mesh, ctx, s);
      SingleSweep(run, mesh, acc, ctx, [s] + rest) ==
        if step.outcome.Raised? then Run(Raised(step.outcome.fault), step.ctx)
        else SingleSweep(run, mesh, acc + [step.outcome.value], step.ctx, rest)
  {
    assert ([s] + rest)[1..] == rest;
  }

  /** The last three stages of the single-call sweep, written out. */
  lemma LastThreeCalls(run: Runner, mesh: Mesh, acc: seq<CheckResult>, c3: Context)
    ensures var r4 := run(mesh, c3, EdgeFaceStage);
      var r5 := run(mesh, r4.ctx, FaceEdgeStage);
      var r6 := run(mesh, r5.ctx, FaceFaceStage);
      SingleSweep(run, mesh, acc, c3, [EdgeFaceStage, FaceEdgeStage, FaceFaceStage]) ==
        if r4.outcome.Raised? then Run(Raised(r4.outcome.fault), r4.ctx)
        else if r5.outcome.Raised? then Run(Raised(r5.outcome.fault), r5.ctx)
        else if r6.outcome.Raised? then Run(Raised(r6.outcome.fault), r6.ctx)
        else Run(Done(acc + [r4.outcome.value, r5.outcome.value, r6.outcome.value]), r6.ctx)
  {
    var r4 := run(mesh, c3, EdgeFaceStage);
    SingleStep(run, mesh, acc, c3, EdgeFaceStage, [FaceEdgeStage, FaceFaceStage]);
    if r4.outcome.Done? {
      var a4 := acc + [r4.outcome.value];
      var r5 := run(mesh, r4.ctx, FaceEdgeStage);
      SingleStep(run, mesh, a4, r4.ctx, FaceEdgeStage, [FaceFaceStage]);
      if r5.outcome.Done? {
        var a5 := a4 + [r5.outcome.value];
        var r6 := run(mesh, r5.ctx, FaceFaceStage);
        SingleStep(run, mesh, a5, r5.ctx, FaceFaceStage, []);
        if r6.outcome.Done? {
          assert a5 + [r6.outcome.value] == acc + [r4.outcome.value, r5.outcome.value, r6.outcome.value];
        }
      }
    }
  }

  /** The single-call sweep over the stage order is the six calls written out. */
  lemma SixCallsSweep(run: Runner, mesh: Mesh, ctx: Context)
    ensures SingleSweep(run, mesh, [], ctx, StageOrder) == SixCalls(run, mesh, ctx)
  {
    var r1 := run(mesh, ctx, TopologyDimStage);
    assert StageOrder == [TopologyDimStage] + [ConnectivityStage, NodeCoordsStage, EdgeFaceStage, FaceEdgeStage, FaceFaceStage];
    SingleStep(run, mesh, [], ctx, TopologyDimStage, [ConnectivityStage, NodeCoordsStage, EdgeFaceStage, FaceEdgeStage, FaceFaceStage]);
    if r1.outcome.Done? {
      var a1 := [] + [r1.outcome.value];
      var r2 := run(mesh, r1.ctx, ConnectivityStage);
      SingleStep(run, mesh, a1, r1.ctx, ConnectivityStage, [NodeCoordsStage, EdgeFaceStage, FaceEdgeStage, FaceFaceStage]);
      if r2.outcome.Done? {
        var a2 := a1 + [r2.outcome.value];
        var r3 := run(mesh, r2.ctx, NodeCoordsStage);
        SingleStep(run, mesh, a2, r2.ctx, NodeCoordsStage, [EdgeFaceStage, FaceEdgeStage, FaceFaceStage]);
        if r3.outcome.Done? {
          var a3 := a2 + [r3.outcome.value];
          LastThreeCalls(run, mesh, a3, r3.ctx);
          var r4 := run(mesh, r3.ctx, EdgeFaceStage);
          var r5 := run(mesh, r4.ctx, FaceEdgeStage);
          var r6 := run(mesh, r5.ctx, FaceFaceStage);
          if r4.outcome.Done? && r5.outcome.Done? && r6.outcome.Done? {
            assert a3 + [r4.outcome.value, r5.outcome.value, r6.outcome.value]
                == [r1.outcome.value, r2.outcome.value, r3.outcome.value, r4.outcome.value, r5.outcome.value, r6.outcome.value];
          }
        }
      }
    }
  }

  /**
    One mesh of this checker in closed form: stage 1 reads the original
    context, stage 2 the same, stage 3 what stage 2 left, and stages 4 to 6
    what stage 3 left.
  */
  function MeshRun(ds: Dataset, mesh: Mesh, ctx: Context): Run<seq<CheckResult>>
  {
    var r2 := ConnectivityAttrs(ds, mesh, ctx);
    var r3 := NodeCoordsExist(ds, mesh, r2.ctx);
    var c3 := r3.ctx;
    var r4 := EdgeFaceConn(ds, mesh, c3);
    var r5 := FaceEdgeConn(ds, mesh, c3);
    var r6 := FaceFaceConn(ds, mesh, c3);
    if r2.outcome.Raised? then Run(Raised(r2.outcome.fault), r2.ctx)
    else if r4.Raised? then Run(Raised(r4.fault), c3)
    else if r5.Raised? then Run(Raised(r5.fault), c3)
    else if r6.Raised? then Run(Raised(r6.fault), c3)
    else Run(Done([TopologyDim(ctx), r2.outcome.value, r3.outcome.value, r4.value, r5.value, r6.value]), c3)
  }

  /** This checker's six calls are the closed form. */
  lemma ChecksSixCalls(ds: Dataset, mesh: Mesh, ctx: Context)
    ensures SixCalls(Checks(ds), mesh, ctx) == MeshRun(ds, mesh, ctx)
  {
    var run := Checks(ds);
    assert run(mesh, ctx, TopologyDimStage) == Run(Done(TopologyDim(ctx)), ctx);
    var r2 := ConnectivityAttrs(ds, mesh, ctx);
    assert run(mesh, ctx, ConnectivityStage) == r2;
    if r2.outcome.Done? {
      var r3 := NodeCoordsExist(ds, mesh, r2.ctx);
      assert run(mesh, r2.ctx, NodeCoordsStage) == r3;
      var c3 := r3.ctx;
      assert run(mesh, c3, EdgeFaceStage) == Run(EdgeFaceConn(ds, mesh, c3), c3);
      assert run(mesh, c3, FaceEdgeStage) == Run(FaceEdgeConn(ds, mesh, c3), c3);
      assert run(mesh, c3, FaceFaceStage) == Run(FaceFaceConn(ds, mesh, c3), c3);
    }
  }

  /** Each stage's second call gives what its first gave, so a mesh's run is its closed form. */
  lemma RunMeshSteps(ds: Dataset, mesh: Mesh, ctx: Context)
    ensures RunMesh(Checks(ds), mesh, ctx) == MeshRun(ds, mesh, ctx)
  {
    StableSweep(Checks(ds), mesh, [], ctx, StageOrder);
    SixCallsSweep(Checks(ds), mesh, ctx);
    ChecksSixCalls(ds, mesh, ctx);
  }

  /** `EdgeFaceNeedsStage2` on the closed form. */
  lemma MeshRunEdgeFace(ds: Dataset, mesh: Mesh, ctx: Context)
    requires ctx.nedges == None && ctx.nfaces == None
    requires MeshRun(ds, mesh, ctx).outcome.Done?
    requires MeshRun(ds, mesh, ctx).outcome.value[3].outOf > 0
    ensures Accepts(ds, mesh, ctx.raw, EdgeNode) && Accepts(ds, mesh, ctx.raw, FaceNode)
  {
    ConnectivityEnriches(ds, mesh, ctx);
  }

  /**
    Stage 4 can only be applicable on a mesh whose context started without
    `nedges` and `nfaces` if stage 2 accepted both the edge and the face
    connectivity: the derived counts come from stage 2, which runs first.
  */
  lemma EdgeFaceNeedsStage2(ds: Dataset, mesh: Mesh, ctx: Context)
    requires ctx.nedges == None && ctx.nfaces == None
    requires RunMesh(Checks(ds), mesh, ctx).outcome.Done?
    requires RunMesh(Checks(ds), mesh, ctx).outcome.value[3].outOf > 0
    ensures Accepts(ds, mesh, ctx.raw, EdgeNode) && Accepts(ds, mesh, ctx.raw, FaceNode)
  {
    RunMeshSteps(ds, mesh, ctx);
    MeshRunEdgeFace(ds, mesh, ctx);
  }

  /**
    Stage 2 run again on what it left, with any node coordinates recorded
    since, gives the same outcome and changes nothing.
  */
  lemma ConnectivityAfterRun(ds: Dataset, mesh: Mesh, ctx: Context, names: seq<string>)
    requires ConnectivityAttrs(ds, mesh, ctx).outcome.Done?
    ensures var f := ConnectivityAttrs(ds, mesh, ctx).ctx.(nodeCoordinates := names);
      ConnectivityAttrs(ds, mesh, f) == Run(ConnectivityAttrs(ds, mesh, ctx).outcome, f)
  {
    var first := ConnectivityAttrs(ds, mesh, ctx);
    var f := first.ctx.(nodeCoordinates := names);
    ConnectivityEnriches(ds, mesh, ctx);
    if Truthy(ctx.raw.topologyDimension) && !MandatoryMissing(ctx.raw) {
      SweepRawOnly(ds, mesh, Tally(0, 0, []), ctx, f, Conns);
    }
    ConnectivityEnriches(ds, mesh, f);
  }

  /** `RunMeshRerun` on the closed form. */
  lemma MeshRunRerun(ds: Dataset, mesh: Mesh, ctx: Context)
    requires MeshRun(ds, mesh, ctx).outcome.Done?
    ensures MeshRun(ds, mesh, MeshRun(ds, mesh, ctx).ctx) == MeshRun(ds, mesh, ctx)
  {
    var r2 := ConnectivityAttrs(ds, mesh, ctx);
    var r3 := NodeCoordsExist(ds, mesh, r2.ctx);
    var f := r3.ctx;
    assert MeshRun(ds, mesh, ctx).ctx == f;
    assert f == r2.ctx.(nodeCoordinates := f.nodeCoordinates);
    ConnectivityAfterRun(ds, mesh, ctx, f.nodeCoordinates);
    assert ConnectivityAttrs(ds, mesh, f) == Run(r2.outcome, f);
    NodeCoordsRerun(ds, mesh, r2.ctx);
    assert TopologyDim(f) == TopologyDim(ctx);
  }

  /**
    Running all six stages again on the context a completed run left gives the
    same results and the same context: no hidden state survives a run.
  */
  lemma RunMeshRerun(ds: Dataset, mesh: Mesh, ctx: Context)
    requires RunMesh(Checks(ds), mesh, ctx).outcome.Done?
    ensures RunMesh(Checks(ds), mesh, RunMesh(Checks(ds), mesh, ctx).ctx) == RunMesh(Checks(ds), mesh, ctx)
  {
    RunMeshSteps(ds, mesh, ctx);
    RunMeshSteps(ds, mesh, MeshRun(ds, mesh, ctx).ctx);
    MeshRunRerun(ds, mesh, ctx);
  }
}
