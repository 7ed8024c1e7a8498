/**
  The six check stages of the UGRID checker and the helpers stage 2 calls,
  each as a function of the dataset, the mesh and the mesh's context record.
  A stage that writes the context returns the new record beside its result.
*/
module Stages {
  import opened Wrappers
  import opened DatasetView
  import opened Conventions
  import opened Results
  import opened MeshContext
  import opened Resolvers

  // ----- Stage 1: topology dimension (checker.py:28-49) -----

  /** `topology_dimension in (1, 2, 3)` under Python equality. */
  predicate ValidTopologyDim(v: Option<AttrValue>)
  {
    IntValue(v).Some? && 1 <= IntValue(v).value <= 3
  }

  /**
    `_check1_topology_dim`: one sub-check, passed exactly by 1, 2 or 3. A falsy
    value draws two messages, another invalid value one, a valid value none.
  */
  function TopologyDim(ctx: Context): (r: CheckResult)
    ensures r.level == High && r.outOf == 1 && r.description == TopologyDimDesc
    ensures r.score == 1 <==> ValidTopologyDim(ctx.raw.topologyDimension)
    ensures r.score <= 1
    ensures |r.messages| ==
      if !Truthy(ctx.raw.topologyDimension) then 2
      else if ValidTopologyDim(ctx.raw.topologyDimension) then 0
      else 1
  {
    var td := ctx.raw.topologyDimension;
    var missing := if Truthy(td) then [] else [MissingTopologyDimension];
    var invalid := if ValidTopologyDim(td) then [] else [InvalidTopologyDimension(td)];
    CheckResult(High, if ValidTopologyDim(td) then 1 else 0, 1, TopologyDimDesc, missing + invalid)
  }

  // ----- Edge/face coordinates helper (checker.py:327-389) -----

  /**
    A coordinate name the loop of checker.py:380-387 can measure without an
    exception: a dataset variable with a length, with the count dimension
    defined.
  */
  predicate Measurable(ds: Dataset, k: Coords, n: string)
  {
    n in ds.variables && |ds.variables[n].shape| > 0 && CoordsCountName(k) in ds.dimensions
  }

  /** How many listed names are measurable variables whose length is the count dimension's size. */
  function LengthMatches(ds: Dataset, k: Coords, names: seq<string>): (n: nat)
    ensures n <= |names|
    decreases |names|
  {
    if names == [] then 0
    else
      var n := names[0];
      (if Measurable(ds, k, n) && ds.variables[n].shape[0] == ds.dimensions[CoordsCountName(k)].size then 1 else 0)
      + LengthMatches(ds, k, names[1..])
  }

  /**
    The loop of checker.py:380-387 over the remaining coordinate names: each
    name is scored when the variable's length equals the size of the dataset's
    `nedges`/`nfaces` dimension and draws a mismatch message otherwise, while
    `out_of` stays 1 throughout. The first name that cannot be measured raises.
  */
  function CoordSweep(ds: Dataset, k: Coords, names: seq<string>, score: nat, messages: seq<Message>)
    : (r: Outcome<CheckResult>)
    ensures r.Done? ==> r.value.outOf == 1 && r.value.level == Low
    ensures r.Done? ==> r.value.score + |r.value.messages| == score + |messages| + |names|
    ensures r.Done? ==> r.value.score >= score
    ensures r.Raised? <==> exists j :: 0 <= j < |names| && !Measurable(ds, k, names[j])
    ensures r.Done? ==> r.value.score == score + LengthMatches(ds, k, names)
    ensures r.Done? ==> r.value.messages[..|messages|] == messages
    ensures r.Done? ==> forall j :: |messages| <= j < |r.value.messages| ==>
      r.value.messages[j] == CoordinateLengthMismatch(k)
    decreases |names|
  {
    if names == [] then Done(CheckResult(Low, score, 1, EdgeCoordsDesc, messages))
    else
      var n := names[0];
      if n !in ds.variables then Raised(MissingKey(n))
      else if |ds.variables[n].shape| == 0 then Raised(Unsized)
      else if CoordsCountName(k) !in ds.dimensions then Raised(MissingKey(CoordsCountName(k)))
      else if ds.variables[n].shape[0] != ds.dimensions[CoordsCountName(k)].size then
        CoordSweep(ds, k, names[1..], score, messages + [CoordinateLengthMismatch(k)])
      else
        CoordSweep(ds, k, names[1..], score + 1, messages)
  }

  /**
    `__check_edge_face_coords__`: absent connectivity and an absent coordinate
    attribute are one unscored sub-check each; otherwise every listed
    coordinate variable is measured against the count dimension.
  */
  function EdgeFaceCoords(ds: Dataset, mesh: Mesh, ctx: Context, c: Conn): (r: Outcome<CheckResult>)
    ensures r.Done? ==> r.value.level == Low && r.value.outOf == 1
    ensures !Truthy(RawConn(ctx.raw, c)) ==> r == Done(CheckResult(Low, 0, 1, EdgeCoordsDesc, [NoConnectivity(c)]))
    ensures Truthy(RawConn(ctx.raw, c)) && c == VolumeNode ==> r.Raised?
    ensures Truthy(RawConn(ctx.raw, c)) && c != VolumeNode && CoordsAttr(CoordsFor(c).value) !in mesh.attributes ==>
      r == Done(CheckResult(Low, 0, 1, EdgeCoordsDesc, [OptionalAttribute]))
    ensures Truthy(RawConn(ctx.raw, c)) && c != VolumeNode && CoordsAttr(CoordsFor(c).value) in mesh.attributes ==>
      var k := CoordsFor(c).value;
      var names := Split(mesh.attributes[CoordsAttr(k)]);
      && (r.Raised? <==> exists j :: 0 <= j < |names| && !Measurable(ds, k, names[j]))
      && (r.Done? ==> r.value.score == LengthMatches(ds, k, names) &&
                      r.value.messages == seq(|names| - r.value.score, _ => CoordinateLengthMismatch(k)))
  {
    if !Truthy(RawConn(ctx.raw, c)) then Done(CheckResult(Low, 0, 1, EdgeCoordsDesc, [NoConnectivity(c)]))
    else
      match CoordsFor(c)
      case None => Raised(MissingKey(ConnAttr(c)))
      case Some(k) =>
        if CoordsAttr(k) !in mesh.attributes then Done(CheckResult(Low, 0, 1, EdgeCoordsDesc, [OptionalAttribute]))
        else
          var names := Split(mesh.attributes[CoordsAttr(k)]);
          var sweep := CoordSweep(ds, k, names, 0, []);
          assert sweep.Raised? <==> exists j :: 0 <= j < |names| && !Measurable(ds, k, names[j]);
          sweep
  }

  // ----- Stage 2: connectivity attributes (checker.py:51-121) -----

  /** The counters stage 2 accumulates. */
  datatype Tally = Tally(score: nat, outOf: nat, messages: seq<Message>)

  /**
    One turn of the loop at checker.py:101-119 for connectivity `c`: a present
    attribute is one sub-check, scored when the shape resolver accepts it; a
    non-standard array triggers the dimension requirement; the coordinate
    helper runs for its exceptions only.
  */
  function ConnStep(ds: Dataset, mesh: Mesh, t: Tally, ctx: Context, c: Conn): (r: Run<Tally>)
    ensures r.ctx.raw == ctx.raw && r.ctx.nodeCoordinates == ctx.nodeCoordinates
    ensures r.outcome.Done? ==>
      r.outcome.value.score + t.outOf <= r.outcome.value.outOf + t.score &&
      r.outcome.value.score >= t.score
  {
    if !Truthy(RawConn(ctx.raw, c)) then Run(Done(t), ctx)
    else
      var shape := ResolveShape(ds, mesh, c);
      if shape.Raised? then Run(Raised(shape.fault), ctx)
      else
        var ctx1 := RecordCount(ds, mesh, ctx, c);
        var ctx2 :=
          if shape.value == Some(NonStd) then NonStdOrderDims(ds, mesh, ctx1, c, DimVarFor(c).value).ctx
          else ctx1;
        var t1 :=
          if shape.value.Some? then Tally(t.score + 1, t.outOf + 1, t.messages)
          else Tally(t.score, t.outOf + 1, t.messages + [InvalidConnectivityArray(c)]);
        var coords := EdgeFaceCoords(ds, mesh, ctx2, c);
        if coords.Raised? then Run(Raised(coords.fault), ctx2) else Run(Done(t1), ctx2)
  }

  /** The loop at checker.py:101-119 over the remaining connectivities, stopping at an exception. */
  function ConnSweep(ds: Dataset, mesh: Mesh, t: Tally, ctx: Context, cs: seq<Conn>): (r: Run<Tally>)
    ensures r.ctx.raw == ctx.raw && r.ctx.nodeCoordinates == ctx.nodeCoordinates
    ensures r.outcome.Done? ==>
      r.outcome.value.score + t.outOf <= r.outcome.value.outOf + t.score &&
      r.outcome.value.score >= t.score
    decreases |cs|
  {
    if cs == [] then Run(Done(t), ctx)
    else
      var step := ConnStep(ds, mesh, t, ctx, cs[0]);
      if step.outcome.Raised? then step
      else ConnSweep(ds, mesh, step.outcome.value, step.ctx, cs[1..])
  }

  /** The search at checker.py:94-98: the connectivity the declared dimension mandates is falsy. */
  predicate MandatoryMissing(raw: RawAttrs)
  {
    exists k :: 0 <= k < |Conns| && !Truthy(RawConn(raw, Conns[k]))
      && IntValue(raw.topologyDimension) == Some(DeclaredDim(Conns[k]))
  }

  /**
    `_check2_connectivity_attrs`. Without a topology dimension, or without the
    mandated connectivity, one unscored sub-check; otherwise one sub-check per
    present connectivity attribute.
  */
  function ConnectivityAttrs(ds: Dataset, mesh: Mesh, ctx: Context): (r: Run<CheckResult>)
    ensures r.ctx.raw == ctx.raw && r.ctx.nodeCoordinates == ctx.nodeCoordinates
    ensures r.outcome.Done? ==>
      r.outcome.value.level == High && r.outcome.value.description == ConnectivityDesc &&
      r.outcome.value.score <= r.outcome.value.outOf
  {
    if !Truthy(ctx.raw.topologyDimension) then
      Run(Done(CheckResult(High, 0, 1, ConnectivityDesc, [ConnectivityUnverifiable])), ctx)
    else if MandatoryMissing(ctx.raw) then
      Run(Done(CheckResult(High, 0, 1, ConnectivityDesc, [])), ctx)
    else
      var sweep := ConnSweep(ds, mesh, Tally(0, 0, []), ctx, Conns);
      match sweep.outcome
      case Raised(f) => Run(Raised(f), sweep.ctx)
      case Done(t) => Run(Done(CheckResult(High, t.score, t.outOf, ConnectivityDesc, t.messages)), sweep.ctx)
  }

  // ----- Stage 3: node coordinates (checker.py:123-175) -----

  /** The listed names that are not dataset variables, in order. */
  function MissingNames(ds: Dataset, names: seq<string>): (r: seq<string>)
    ensures |r| <= |names|
    decreases |names|
  {
    if names == [] then []
    else
      var last := names[|names| - 1];
      MissingNames(ds, names[..|names| - 1]) + (if last in ds.variables then [] else [last])
  }

  /** How many listed names are dataset variables. */
  function FoundCount(ds: Dataset, names: seq<string>): (n: nat)
    ensures n + |MissingNames(ds, names)| == |names|
    decreases |names|
  {
    if names == [] then 0
    else FoundCount(ds, names[..|names| - 1]) + (if names[|names| - 1] in ds.variables then 1 else 0)
  }

  /** One "not in variables" message per missing name, in order. */
  function NotFoundMessages(names: seq<string>): (r: seq<Message>)
    ensures |r| == |names|
    ensures forall k :: 0 <= k < |names| ==> r[k] == NodeCoordinateNotInVariables(names[k])
    decreases |names|
  {
    if names == [] then []
    else NotFoundMessages(names[..|names| - 1]) + [NodeCoordinateNotInVariables(names[|names| - 1])]
  }

  /**
    `_check3_ncoords_exist`: the context's node coordinates are reset; when the
    space-split attribute has as many names as the topology dimension, each
    name is one sub-check and the missing ones are recorded, in order.
  */
  function NodeCoordsExist(ds: Dataset, mesh: Mesh, ctx: Context): (r: Run<CheckResult>)
    ensures r.outcome.Done? && r.outcome.value.level == High && r.outcome.value.description == NodeCoordsDesc
    ensures 0 < r.outcome.value.outOf && r.outcome.value.score <= r.outcome.value.outOf
    ensures r.ctx == ctx.(nodeCoordinates := r.ctx.nodeCoordinates)
    ensures |r.ctx.nodeCoordinates| + r.outcome.value.score <= r.outcome.value.outOf
  {
    var reset := ctx.(nodeCoordinates := []);
    var td := ctx.raw.topologyDimension;
    if !Truthy(td) then
      Run(Done(CheckResult(High, 0, 1, NodeCoordsDesc, [NoTopologyDimension])), reset)
    else if NodeCoordinatesAttr !in mesh.attributes then
      Run(Done(CheckResult(High, 0, 1, NodeCoordsDesc, [NoNodeCoordinates])), reset)
    else
      var names := Split(mesh.attributes[NodeCoordinatesAttr]);
      if IntValue(td) == Some(|names|) then
        var missing := MissingNames(ds, names);
        Run(Done(CheckResult(High, FoundCount(ds, names), |names|, NodeCoordsDesc, NotFoundMessages(missing))),
            ctx.(nodeCoordinates := missing))
      else
        Run(Done(CheckResult(High, 0, 1, NodeCoordsDesc, [NodeCoordinateCountMismatch(td)])), reset)
  }

  // ----- Stage 4: edge-face connectivity (checker.py:177-216) -----

  /**
    `_check4_edge_face_conn`: inapplicable unless both `nedges` and `nfaces`
    were derived; inapplicable again without the optional attribute; otherwise
    one sub-check, passed by shape `(nedges, 2)`.
  */
  function EdgeFaceConn(ds: Dataset, mesh: Mesh, ctx: Context): (r: Outcome<CheckResult>)
    ensures r.Done? ==>
      r.value.level == Low && r.value.description == EdgeFaceDesc &&
      r.value.score <= r.value.outOf <= 1
  {
    if !DimTruthy(ctx.nedges) || !DimTruthy(ctx.nfaces) then
      Done(CheckResult(Low, 0, 0, EdgeFaceDesc, []))
    else if AdjacencyAttr(EdgeFace) !in mesh.attributes then
      Done(CheckResult(Low, 0, 0, EdgeFaceDesc, [NoOptional(EdgeFace)]))
    else
      var name := mesh.attributes[AdjacencyAttr(EdgeFace)];
      if name !in ds.variables then Raised(MissingKey(name))
      else
        var shape := ds.variables[name].shape;
        if |shape| != 2 then Raised(UnpackMismatch)
        else if shape[0] != ctx.nedges.value.size || shape[1] != 2 then
          Done(CheckResult(Low, 0, 1, EdgeFaceDesc, [IncorrectShape(EdgeFace, shape[0], shape[1])]))
        else
          Done(CheckResult(Low, 1, 1, EdgeFaceDesc, []))
  }

  // ----- Stages 5 and 6: face-edge and face-face connectivity (checker.py:218-278, 391-433) -----

  /** The `(valid, _out_of, m)` triple of `__check_fec_ffc__`. */
  datatype AdjacencyCheck = AdjacencyCheck(valid: bool, outOf: nat, message: Message)

  /**
    `__check_fec_ffc__`: inapplicable without a derived `nfaces` or without the
    optional attribute; otherwise one sub-check, valid for shape
    `(nfaces, maxnumnodesperface)`. The second size is only consulted once the
    first matches, and a missing `maxnumnodesperface` then raises.
  */
  function FecFfc(ds: Dataset, mesh: Mesh, ctx: Context, a: Adjacency): (r: Outcome<AdjacencyCheck>)
    ensures r.Done? ==> r.value.outOf <= 1
    ensures r.Done? && r.value.valid ==> r.value.outOf == 1 && r.value.message == Blank
  {
    var mnpf := if MaxNodesPerFaceName in ds.dimensions then Some(ds.dimensions[MaxNodesPerFaceName]) else None;
    if !DimTruthy(ctx.nfaces) then Done(AdjacencyCheck(false, 0, FacesUndefined))
    else if AdjacencyAttr(a) !in mesh.attributes then Done(AdjacencyCheck(false, 0, NoOptional(a)))
    else
      var name := mesh.attributes[AdjacencyAttr(a)];
      if name !in ds.variables then Raised(MissingKey(name))
      else
        var shape := ds.variables[name].shape;
        if |shape| != 2 then Raised(UnpackMismatch)
        else if shape[0] != ctx.nfaces.value.size then
          Done(AdjacencyCheck(false, 1, IncorrectShape(a, shape[0], shape[1])))
        else if mnpf.None? then Raised(NoneHasNoAttribute)
        else if shape[1] != mnpf.value.size then
          Done(AdjacencyCheck(false, 1, IncorrectShape(a, shape[0], shape[1])))
        else Done(AdjacencyCheck(true, 1, Blank))
  }

  /** Stages 5 and 6 turn the triple into a result, always appending its message. */
  function AdjacencyResult(o: Outcome<AdjacencyCheck>, desc: Description): (r: Outcome<CheckResult>)
    ensures r.Done? <==> o.Done?
    ensures r.Done? ==>
      r.value.level == Low && r.value.description == desc && r.value.outOf == o.value.outOf &&
      (r.value.score == 1 <==> o.value.valid) && r.value.score <= 1 &&
      r.value.messages == [o.value.message]
  {
    match o
    case Raised(f) => Raised(f)
    case Done(chk) => Done(CheckResult(Low, if chk.valid then 1 else 0, chk.outOf, desc, [chk.message]))
  }

  /** `_check5_face_edge_conn`. */
  function FaceEdgeConn(ds: Dataset, mesh: Mesh, ctx: Context): (r: Outcome<CheckResult>)
    ensures r.Done? ==> r.value.score <= r.value.outOf <= 1 && |r.value.messages| == 1
  {
    AdjacencyResult(FecFfc(ds, mesh, ctx, FaceEdge), FaceEdgeDesc)
  }

  /** `_check6_face_face_conn`. */
  function FaceFaceConn(ds: Dataset, mesh: Mesh, ctx: Context): (r: Outcome<CheckResult>)
    ensures r.Done? ==> r.value.score <= r.value.outOf <= 1 && |r.value.messages| == 1
  {
    AdjacencyResult(FecFfc(ds, mesh, ctx, FaceFace), FaceFaceDesc)
  }
}
