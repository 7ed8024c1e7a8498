/**
  The checker object: it owns the registry `meshes`, which maps each mesh to
  its context record, and its check methods read and write that registry in
  place. Each method is proved equal to the stage function that specifies it,
  so the properties proved about those functions hold of the methods.
*/
module Checker {
  import opened Wrappers
  import opened DatasetView
  import opened Conventions
  import opened Results
  import opened MeshContext
  import opened Resolvers
  import opened Stages
  import opened Orchestrator

  /** One step of the connectivity loop, as the loop in `ConnectivitySweep` takes it. */
  lemma ConnSweepUnfold(ds: Dataset, mesh: Mesh, t: Tally, before: Context, step: Outcome<Tally>, after: Context, cs: seq<Conn>)
    requires cs != []
    requires Run(step, after) == ConnStep(ds, mesh, t, before, cs[0])
    ensures step.Raised? ==> Run(step, after) == ConnSweep(ds, mesh, t, before, cs)
    ensures step.Done? ==> ConnSweep(ds, mesh, step.value, after, cs[1..]) == ConnSweep(ds, mesh, t, before, cs)
  {
  }

  class UgridChecker {
    /** The dataset under check (`self.ds`). */
    const ds: Dataset
    /** The registry's iteration order: the order in which meshes were discovered. */
    const order: seq<Mesh>
    /** The registry (`self.meshes`): each mesh's context record. */
    var meshes: map<Mesh, Context>

    /** `order` lists every registered mesh exactly once. */
    ghost predicate Valid()
      reads this
    {
      Registry(meshes, order)
    }

    /** The checker after discovery has filled the registry; discovery itself is not modelled. */
    constructor (ds: Dataset, meshes: map<Mesh, Context>, order: seq<Mesh>)
      requires Registry(meshes, order)
      ensures Valid()
      ensures this.ds == ds && this.meshes == meshes && this.order == order
    {
      this.ds := ds;
      this.meshes := meshes;
      this.order := order;
    }

    /**
      `_validate_nc_shape`: the orientation of the mesh's `c` array, recording
      the count dimension in the mesh's context when the array is valid.
    */
    method ValidateNcShape(mesh: Mesh, c: Conn) returns (r: Outcome<Option<Orientation>>)
      requires Valid() && mesh in meshes
      modifies this
      ensures Valid()
      ensures r == ResolveShape(ds, mesh, c)
      ensures meshes == old(meshes)[mesh := RecordCount(ds, mesh, old(meshes)[mesh], c)]
    {
      if ConnAttr(c) !in mesh.attributes {
        return Done(None);
      }
      var arrayName := mesh.attributes[ConnAttr(c)];
      if arrayName !in ds.variables {
        return Raised(NoneHasNoAttribute);
      }
      var dims := ds.variables[arrayName].dimensions;
      if |dims| != 2 {
        return Raised(UnpackMismatch);
      }
      if dims[0] !in ds.dimensions {
        return Raised(MissingKey(dims[0]));
      }
      if dims[1] !in ds.dimensions {
        return Raised(MissingKey(dims[1]));
      }
      var dim1, dim2 := ds.dimensions[dims[0]], ds.dimensions[dims[1]];
      if dim1.name !in ds.dimensions || dim2.name !in ds.dimensions {
        return Done(None);
      }
      if c == VolumeNode {
        return Raised(NotImplemented);
      }
      var countName, fixed := CountName(c), FixedCount(c);
      if dim1.name == countName && dim2.size == fixed {
        meshes := meshes[mesh := WithCount(meshes[mesh], c, ds.dimensions[countName])];
        return Done(Some(Regular));
      }
      if dim1.size == fixed && dim2.name == countName {
        meshes := meshes[mesh := WithCount(meshes[mesh], c, ds.dimensions[countName])];
        return Done(Some(NonStd));
      }
      return Done(None);
    }

    /**
      `__check_edge_face_dim__`: whether the mesh's `dv` attribute names a
      dataset dimension, recording it in the context when it does, and the
      message for the two ways it can fail.
    */
    method CheckEdgeFaceDim(mesh: Mesh, dv: DimVar) returns (found: bool, msg: Option<Message>)
      requires Valid() && mesh in meshes
      modifies this
      ensures Valid()
      ensures found <==> DimensionLookup(ds, mesh, dv).Ok?
      ensures msg == if found then None else Some(DimensionLookup(ds, mesh, dv).error)
      ensures meshes == old(meshes)[mesh := RecordDimVar(ds, mesh, old(meshes)[mesh], dv)]
    {
      if DimVarAttr(dv) !in mesh.attributes {
        return false, Some(MissingDimensionAttribute(dv));
      }
      var name := mesh.attributes[DimVarAttr(dv)];
      if name !in ds.dimensions {
        return false, Some(UndefinedDimension);
      }
      meshes := meshes[mesh := WithDimVar(meshes[mesh], dv, ds.dimensions[name])];
      return true, None;
    }

    /**
      `__check_nonstd_order_dims__`: the dimension requirement for a
      non-standard `c` array; volume connectivity has no dimension variable and
      the lookup of one raises.
    */
    method CheckNonstdOrderDims(mesh: Mesh, c: Conn) returns (r: Outcome<CheckResult>)
      requires Valid() && mesh in meshes
      modifies this
      ensures Valid()
      ensures DimVarFor(c).None? ==> r == Raised(MissingKey(ConnAttr(c))) && meshes == old(meshes)
      ensures DimVarFor(c).Some? ==>
        var spec := NonStdOrderDims(ds, mesh, old(meshes)[mesh], c, DimVarFor(c).value);
        r == spec.outcome && meshes == old(meshes)[mesh := spec.ctx]
    {
      if DimVarFor(c).None? {
        return Raised(MissingKey(ConnAttr(c)));
      }
      var dv := DimVarFor(c).value;
      var found, msg := CheckEdgeFaceDim(mesh, dv);
      var score := 0;
      var messages := [];
      if found {
        score := 1;
      } else {
        messages := [msg.value];
      }
      return Done(CheckResult(Medium, score, 1, NonStdOrderDesc(dv, c), messages));
    }

    /**
      `__check_edge_face_coords__`: every coordinate variable the mesh lists
      for `c` is measured against the count dimension, in order, stopping at
      the first lookup that raises.
    */
    method CheckEdgeFaceCoords(mesh: Mesh, c: Conn) returns (r: Outcome<CheckResult>)
      requires mesh in meshes
      ensures r == EdgeFaceCoords(ds, mesh, meshes[mesh], c)
    {
      if !Truthy(RawConn(meshes[mesh].raw, c)) {
        return Done(CheckResult(Low, 0, 1, EdgeCoordsDesc, [NoConnectivity(c)]));
      }
      if CoordsFor(c).None? {
        return Raised(MissingKey(ConnAttr(c)));
      }
      var k := CoordsFor(c).value;
      if CoordsAttr(k) !in mesh.attributes {
        return Done(CheckResult(Low, 0, 1, EdgeCoordsDesc, [OptionalAttribute]));
      }
      var names := Split(mesh.attributes[CoordsAttr(k)]);
      var score: nat := 0;
      var messages: seq<Message> := [];
      var i := 0;
      while i < |names|
        invariant 0 <= i <= |names|
        invariant CoordSweep(ds, k, names[i..], score, messages) == CoordSweep(ds, k, names, 0, [])
      {
        var n := names[i];
        assert names[i..][1..] == names[i + 1..];
        if n !in ds.variables {
          return Raised(MissingKey(n));
        }
        if |ds.variables[n].shape| == 0 {
          return Raised(Unsized);
        }
        if CoordsCountName(k) !in ds.dimensions {
          return Raised(MissingKey(CoordsCountName(k)));
        }
        if ds.variables[n].shape[0] != ds.dimensions[CoordsCountName(k)].size {
          messages := messages + [CoordinateLengthMismatch(k)];
        } else {
          score := score + 1;
        }
        i := i + 1;
      }
      return Done(CheckResult(Low, score, 1, EdgeCoordsDesc, messages));
    }

    /**
      One turn of the loop in `_check2_connectivity_attrs` for connectivity
      `c`, adding to the counters `t`.
    */
    method ConnectivityStep(mesh: Mesh, t: Tally, c: Conn) returns (r: Outcome<Tally>)
      requires Valid() && mesh in meshes
      modifies this
      ensures Valid()
      ensures Run(r, meshes[mesh]) == ConnStep(ds, mesh, t, old(meshes)[mesh], c)
      ensures meshes == old(meshes)[mesh := meshes[mesh]]
    {
      if !Truthy(RawConn(meshes[mesh].raw, c)) {
        return Done(t);
      }
      var outOf := t.outOf + 1;
      var shape := ValidateNcShape(mesh, c);
      if shape.Raised? {
        return Raised(shape.fault);
      }
      if shape.value == Some(NonStd) {
        var requirement := CheckNonstdOrderDims(mesh, c);
      }
      var score, messages := t.score, t.messages;
      if shape.value.Some? {
        score := score + 1;
      } else {
        messages := messages + [InvalidConnectivityArray(c)];
      }
      var coords := CheckEdgeFaceCoords(mesh, c);
      if coords.Raised? {
        return Raised(coords.fault);
      }
      return Done(Tally(score, outOf, messages));
    }

    /**
      The search in `_check2_connectivity_attrs` for the connectivity that the
      declared topology dimension makes mandatory, when it is falsy.
    */
    method FindMandatoryMissing(raw: RawAttrs) returns (missing: bool)
      ensures missing <==> MandatoryMissing(raw)
    {
      var k := 0;
      while k < |Conns|
        invariant 0 <= k <= |Conns|
        invariant forall j :: 0 <= j < k ==>
          Truthy(RawConn(raw, Conns[j])) || IntValue(raw.topologyDimension) != Some(DeclaredDim(Conns[j]))
      {
        if !Truthy(RawConn(raw, Conns[k])) && IntValue(raw.topologyDimension) == Some(DeclaredDim(Conns[k])) {
          return true;
        }
        k := k + 1;
      }
      return false;
    }

    /** The loop of `_check2_connectivity_attrs` over edge, face and volume connectivity. */
    method ConnectivitySweep(mesh: Mesh) returns (r: Outcome<Tally>)
      requires Valid() && mesh in meshes
      modifies this
      ensures Valid()
      ensures Run(r, meshes[mesh]) == ConnSweep(ds, mesh, Tally(0, 0, []), old(meshes)[mesh], Conns)
      ensures meshes == old(meshes)[mesh := meshes[mesh]]
    {
      var t := Tally(0, 0, []);
      var cs := Conns;
      while cs != []
        invariant Valid() && mesh in meshes
        invariant meshes == old(meshes)[mesh := meshes[mesh]]
        invariant ConnSweep(ds, mesh, t, meshes[mesh], cs) ==
                  ConnSweep(ds, mesh, Tally(0, 0, []), old(meshes)[mesh], Conns)
        decreases |cs|
      {
        ghost var before := meshes[mesh];
        var step := ConnectivityStep(mesh, t, cs[0]);
        ConnSweepUnfold(ds, mesh, t, before, step, meshes[mesh], cs);
        if step.Raised? {
          return Raised(step.fault);
        }
        t := step.value;
        cs := cs[1..];
      }
      return Done(t);
    }

    /**
      `_check2_connectivity_attrs`: the two early answers, then one sub-check
      per present connectivity attribute, in the order edge, face, volume,
      with the context writes of the helpers it calls.
    */
    method CheckConnectivityAttrs(mesh: Mesh) returns (r: Outcome<CheckResult>)
      requires Valid() && mesh in meshes
      modifies this
      ensures Valid()
      ensures Run(r, meshes[mesh]) == ConnectivityAttrs(ds, mesh, old(meshes)[mesh])
      ensures meshes == old(meshes)[mesh := meshes[mesh]]
    {
      var raw := meshes[mesh].raw;
      if !Truthy(raw.topologyDimension) {
        return Done(CheckResult(High, 0, 1, ConnectivityDesc, [ConnectivityUnverifiable]));
      }
      var missing := FindMandatoryMissing(raw);
      if missing {
        return Done(CheckResult(High, 0, 1, ConnectivityDesc, []));
      }
      var sweep := ConnectivitySweep(mesh);
      if sweep.Raised? {
        return Raised(sweep.fault);
      }
      var t := sweep.value;
      return Done(CheckResult(High, t.score, t.outOf, ConnectivityDesc, t.messages));
    }

    /**
      The loop of `_check3_ncoords_exist` over the listed names: the names
      that are not dataset variables, in order, their messages and the score.
    */
    method NodeCoordsSweep(names: seq<string>) returns (score: nat, missing: seq<string>, messages: seq<Message>)
      ensures score == FoundCount(ds, names) && missing == MissingNames(ds, names)
      ensures messages == NotFoundMessages(missing)
    {
      score, missing, messages := 0, [], [];
      var i := 0;
      while i < |names|
        invariant 0 <= i <= |names|
        invariant missing == MissingNames(ds, names[..i])
        invariant score == FoundCount(ds, names[..i])
        invariant messages == NotFoundMessages(missing)
      {
        var n := names[i];
        assert names[..i + 1][..i] == names[..i];
        if n !in ds.variables {
          assert (missing + [n])[..|missing|] == missing;
          missing := missing + [n];
          messages := messages + [NodeCoordinateNotInVariables(n)];
        } else {
          score := score + 1;
        }
        i := i + 1;
      }
      assert names[..|names|] == names;
    }

    /**
      `_check3_ncoords_exist`: empties the mesh's recorded node coordinates;
      then, when the listed names match the topology dimension in number,
      scores each name that is a dataset variable and records the others.
      Nothing reads the recorded list before the check returns, so it is
      written once, at the end.
    */
    method CheckNodeCoordsExist(mesh: Mesh) returns (r: CheckResult)
      requires Valid() && mesh in meshes
      modifies this
      ensures Valid()
      ensures Run(Done(r), meshes[mesh]) == NodeCoordsExist(ds, mesh, old(meshes)[mesh])
      ensures meshes == old(meshes)[mesh := meshes[mesh]]
    {
      var td := meshes[mesh].raw.topologyDimension;
      var recorded: seq<string> := [];
      if !Truthy(td) {
        r := CheckResult(High, 0, 1, NodeCoordsDesc, [NoTopologyDimension]);
      } else if NodeCoordinatesAttr !in mesh.attributes {
        r := CheckResult(High, 0, 1, NodeCoordsDesc, [NoNodeCoordinates]);
      } else {
        var names := Split(mesh.attributes[NodeCoordinatesAttr]);
        if IntValue(td) == Some(|names|) {
          var score, missing, messages := NodeCoordsSweep(names);
          recorded := missing;
          r := CheckResult(High, score, |names|, NodeCoordsDesc, messages);
        } else {
          r := CheckResult(High, 0, 1, NodeCoordsDesc, [NodeCoordinateCountMismatch(td)]);
        }
      }
      meshes := meshes[mesh := meshes[mesh].(nodeCoordinates := recorded)];
    }

    /** One check method called on one mesh. */
    method RunCheck(mesh: Mesh, s: Stage) returns (r: Outcome<CheckResult>)
      requires Valid() && mesh in meshes
      modifies this
      ensures Valid()
      ensures Run(r, meshes[mesh]) == RunStage(ds, mesh, old(meshes)[mesh], s)
      ensures meshes == old(meshes)[mesh := meshes[mesh]]
    {
      match s
      case TopologyDimStage =>
        r := Done(TopologyDim(meshes[mesh]));
      case ConnectivityStage =>
        r := CheckConnectivityAttrs(mesh);
      case NodeCoordsStage =>
        var result := CheckNodeCoordsExist(mesh);
        r := Done(result);
      case EdgeFaceStage =>
        r := EdgeFaceConn(ds, mesh, meshes[mesh]);
      case FaceEdgeStage =>
        r := FaceEdgeConn(ds, mesh, meshes[mesh]);
      case FaceFaceStage =>
        r := FaceFaceConn(ds, mesh, meshes[mesh]);
    }

    /**
      One turn of the inner loop of `check_run`: the check is called twice on
      the mesh and the second result kept.
    */
    method RunCheckTwice(mesh: Mesh, s: Stage) returns (r: Outcome<CheckResult>)
      requires Valid() && mesh in meshes
      modifies this
      ensures Valid()
      ensures var first := RunStage(ds, mesh, old(meshes)[mesh], s);
        if first.outcome.Raised? then Run(r, meshes[mesh]) == first
        else Run(r, meshes[mesh]) == RunStage(ds, mesh, first.ctx, s)
      ensures meshes == old(meshes)[mesh := meshes[mesh]]
    {
      var first := RunCheck(mesh, s);
      if first.Raised? {
        return first;
      }
      r := RunCheck(mesh, s);
    }

    /** The inner loop of `check_run` for one mesh, appending to `results`. */
    method RunMeshChecks(mesh: Mesh, results: seq<CheckResult>) returns (r: Outcome<seq<CheckResult>>)
      requires Valid() && mesh in meshes
      modifies this
      ensures Valid()
      ensures Run(r, meshes[mesh]) == StageSweep(Checks(ds), mesh, results, old(meshes)[mesh], StageOrder)
      ensures meshes == old(meshes)[mesh := meshes[mesh]]
    {
      var acc := results;
      var j := 0;
      while j < |StageOrder|
        invariant 0 <= j <= |StageOrder|
        invariant Valid() && mesh in meshes
        invariant meshes == old(meshes)[mesh := meshes[mesh]]
        invariant StageSweep(Checks(ds), mesh, acc, meshes[mesh], StageOrder[j..]) ==
                  StageSweep(Checks(ds), mesh, results, old(meshes)[mesh], StageOrder)
      {
        SweepStep(Checks(ds), mesh, acc, meshes[mesh], StageOrder[j], StageOrder[j + 1..]);
        assert StageOrder[j..] == [StageOrder[j]] + StageOrder[j + 1..];
        var result := RunCheckTwice(mesh, StageOrder[j]);
        if result.Raised? {
          return Raised(result.fault);
        }
        acc := acc + [result.value];
        j := j + 1;
      }
      return Done(acc);
    }

    /**
      `check_run`: every mesh in registry order, every stage in stage order,
      each stage called twice and the second result kept, then the summary.
    */
    method CheckRun() returns (r: Outcome<seq<CheckResult>>)
      requires Valid()
      modifies this
      ensures Valid()
      ensures Sweep(r, meshes) == Orchestrator.CheckRun(Checks(ds), old(meshes), order)
    {
      if |meshes| == 0 {
        return Done([NoMeshesResult]);
      }
      var results: seq<CheckResult> := [];
      var i := 0;
      while i < |order|
        invariant 0 <= i <= |order|
        invariant Valid()
        invariant MeshSweep(Checks(ds), results, meshes, order[i..]) == MeshSweep(Checks(ds), [], old(meshes), order)
      {
        assert order[i..][1..] == order[i + 1..];
        var block := RunMeshChecks(order[i], results);
        if block.Raised? {
          return Raised(block.fault);
        }
        results := block.value;
        i := i + 1;
      }
      return Done(results + [Summary]);
    }
  }
}
