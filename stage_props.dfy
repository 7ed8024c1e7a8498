/**
  Properties of the check stages: how stage 2 counts and when it stops early,
  what it writes into the context, that re-running a stage on the context it
  enriched changes nothing, and how stages 3 to 6 grade.
*/
module StageProps {
  import opened Wrappers
  import opened DatasetView
  import opened Conventions
  import opened Results
  import opened MeshContext
  import opened Resolvers
  import opened Stages

  // ----- Stage 2: early returns -----

  /** Without a topology dimension stage 2 is one failed sub-check with one message. */
  lemma ConnectivityWithoutTopology(ds: Dataset, mesh: Mesh, ctx: Context)
    requires !Truthy(ctx.raw.topologyDimension)
    ensures ConnectivityAttrs(ds, mesh, ctx) ==
      Run(Done(CheckResult(High, 0, 1, ConnectivityDesc, [ConnectivityUnverifiable])), ctx)
  {
  }

  /**
    When the connectivity the declared dimension mandates (1 edge, 2 face,
    3 volume) is falsy, stage 2 is one failed sub-check with NO message: the
    message built at checker.py:97 is never appended.
  */
  lemma MandatoryConnectivityMissing(ds: Dataset, mesh: Mesh, ctx: Context, c: Conn)
    requires Truthy(ctx.raw.topologyDimension)
    requires IntValue(ctx.raw.topologyDimension) == Some(DeclaredDim(c))
    requires !Truthy(RawConn(ctx.raw, c))
    ensures ConnectivityAttrs(ds, mesh, ctx) == Run(Done(CheckResult(High, 0, 1, ConnectivityDesc, [])), ctx)
  {
    var k := match c case EdgeNode => 0 case FaceNode => 1 case VolumeNode => 2;
    assert Conns[k] == c;
    assert MandatoryMissing(ctx.raw);
  }

  // ----- Stage 2: counting -----

  /**
    The mandated connectivity, written out: dimension 1 needs edges, 2 faces
    and 3 volumes, compared under Python equality.
  */
  lemma MandatoryMissingCases(raw: RawAttrs)
    ensures MandatoryMissing(raw) <==>
      || (IntValue(raw.topologyDimension) == Some(1) && !Truthy(raw.edgeNodeConnectivity))
      || (IntValue(raw.topologyDimension) == Some(2) && !Truthy(raw.faceNodeConnectivity))
      || (IntValue(raw.topologyDimension) == Some(3) && !Truthy(raw.volumeNodeConnectivity))
  {
    if IntValue(raw.topologyDimension) == Some(1) && !Truthy(raw.edgeNodeConnectivity) {
      assert Conns[0] == EdgeNode;
    }
    if IntValue(raw.topologyDimension) == Some(2) && !Truthy(raw.faceNodeConnectivity) {
      assert Conns[1] == FaceNode;
    }
    if IntValue(raw.topologyDimension) == Some(3) && !Truthy(raw.volumeNodeConnectivity) {
      assert Conns[2] == VolumeNode;
    }
  }

  /** The connectivities whose raw context value is truthy. */
  function Present(raw: RawAttrs, cs: seq<Conn>): (r: seq<Conn>)
    ensures |r| <= |cs|
    ensures forall c :: c in r <==> c in cs && Truthy(RawConn(raw, c))
  {
    if cs == [] then []
    else (if Truthy(RawConn(raw, cs[0])) then [cs[0]] else []) + Present(raw, cs[1..])
  }

  /** Present and accepted by the shape resolver. */
  predicate Accepts(ds: Dataset, mesh: Mesh, raw: RawAttrs, c: Conn)
  {
    Truthy(RawConn(raw, c)) && ResolveShape(ds, mesh, c).Done? && ResolveShape(ds, mesh, c).value.Some?
  }

  /** Present and answered `(False, None)` by the shape resolver. */
  predicate Rejects(ds: Dataset, mesh: Mesh, raw: RawAttrs, c: Conn)
  {
    Truthy(RawConn(raw, c)) && ResolveShape(ds, mesh, c) == Done(None)
  }

  function Accepted(ds: Dataset, mesh: Mesh, raw: RawAttrs, cs: seq<Conn>): seq<Conn>
  {
    if cs == [] then []
    else (if Accepts(ds, mesh, raw, cs[0]) then [cs[0]] else []) + Accepted(ds, mesh, raw, cs[1..])
  }

  function Rejected(ds: Dataset, mesh: Mesh, raw: RawAttrs, cs: seq<Conn>): seq<Conn>
  {
    if cs == [] then []
    else (if Rejects(ds, mesh, raw, cs[0]) then [cs[0]] else []) + Rejected(ds, mesh, raw, cs[1..])
  }

  /** One "invalid array" message per connectivity, in order. */
  function InvalidMessages(cs: seq<Conn>): (r: seq<Message>)
    ensures |r| == |cs|
  {
    if cs == [] then [] else [InvalidConnectivityArray(cs[0])] + InvalidMessages(cs[1..])
  }

  /** The k-th message names the k-th connectivity. */
  lemma {:induction false} InvalidMessagesKinds(cs: seq<Conn>)
    ensures forall k :: 0 <= k < |cs| ==> InvalidMessages(cs)[k] == InvalidConnectivityArray(cs[k])
  {
    if cs != [] {
      InvalidMessagesKinds(cs[1..]);
      assert forall k :: 1 <= k < |cs| ==> InvalidMessages(cs)[k] == InvalidMessages(cs[1..])[k - 1];
    }
  }

  /**
    A sweep that completes adds one sub-check per present connectivity, one
    point per accepted array and one message per rejected array, in order;
    every present array is either accepted or rejected.
  */
  lemma {:induction false} SweepTally(ds: Dataset, mesh: Mesh, t: Tally, ctx: Context, cs: seq<Conn>)
    requires ConnSweep(ds, mesh, t, ctx, cs).outcome.Done?
    ensures var v := ConnSweep(ds, mesh, t, ctx, cs).outcome.value;
      && v.outOf == t.outOf + |Present(ctx.raw, cs)|
      && v.score == t.score + |Accepted(ds, mesh, ctx.raw, cs)|
      && v.messages == t.messages + InvalidMessages(Rejected(ds, mesh, ctx.raw, cs))
      && |Present(ctx.raw, cs)| == |Accepted(ds, mesh, ctx.raw, cs)| + |Rejected(ds, mesh, ctx.raw, cs)|
    decreases |cs|
  {
    if cs != [] {
      var c := cs[0];
      var step := ConnStep(ds, mesh, t, ctx, c);
      assert step.outcome.Done?;
      SweepTally(ds, mesh, step.outcome.value, step.ctx, cs[1..]);
      var rest := Rejected(ds, mesh, ctx.raw, cs[1..]);
      if !Truthy(RawConn(ctx.raw, c)) {
        assert step.outcome.value == t;
        assert Rejected(ds, mesh, ctx.raw, cs) == [] + rest;
        assert [] + rest == rest;
      } else {
        var shape := ResolveShape(ds, mesh, c);
        assert shape.Done?;
        if shape.value.Some? {
          assert step.outcome.value.messages == t.messages;
          assert Rejected(ds, mesh, ctx.raw, cs) == [] + rest;
          assert [] + rest == rest;
        } else {
          assert step.outcome.value.messages == t.messages + [InvalidConnectivityArray(c)];
          assert Rejected(ds, mesh, ctx.raw, cs) == [c] + rest;
          assert ([c] + rest)[1..] == rest;
          assert InvalidMessages([c] + rest) == [InvalidConnectivityArray(c)] + InvalidMessages(rest);
          assert t.messages + [InvalidConnectivityArray(c)] + InvalidMessages(rest)
            == t.messages + ([InvalidConnectivityArray(c)] + InvalidMessages(rest));
        }
      }
    }
  }

  /**
    Stage 2 past its early returns: `out_of` is the number of present
    connectivity attributes, `score` the number the shape resolver accepts,
    and there is exactly one message per rejected array.
  */
  lemma ConnectivityTally(ds: Dataset, mesh: Mesh, ctx: Context)
    requires Truthy(ctx.raw.topologyDimension) && !MandatoryMissing(ctx.raw)
    requires ConnectivityAttrs(ds, mesh, ctx).outcome.Done?
    ensures var r := ConnectivityAttrs(ds, mesh, ctx).outcome.value;
      && r.outOf == |Present(ctx.raw, Conns)|
      && r.score == |Accepted(ds, mesh, ctx.raw, Conns)|
      && r.messages == InvalidMessages(Rejected(ds, mesh, ctx.raw, Conns))
      && |r.messages| == r.outOf - r.score
  {
    SweepTally(ds, mesh, Tally(0, 0, []), ctx, Conns);
  }

  /** A present volume connectivity makes any sweep over it raise. */
  lemma {:induction false} SweepVolumeRaises(ds: Dataset, mesh: Mesh, t: Tally, ctx: Context, cs: seq<Conn>)
    requires VolumeNode in cs && Truthy(ctx.raw.volumeNodeConnectivity)
    ensures ConnSweep(ds, mesh, t, ctx, cs).outcome.Raised?
    decreases |cs|
  {
    var step := ConnStep(ds, mesh, t, ctx, cs[0]);
    if cs[0] != VolumeNode && step.outcome.Done? {
      SweepVolumeRaises(ds, mesh, step.outcome.value, step.ctx, cs[1..]);
    }
  }

  /**
    A sweep whose i-th connectivity is a present volume array that reaches the
    per-kind tests ends with the unsupported-volume exception, unless the
    sweep over the connectivities before it raised first.
  */
  lemma {:induction false} SweepVolumeUnsupported(ds: Dataset, mesh: Mesh, t: Tally, ctx: Context, cs: seq<Conn>, i: nat)
    requires i < |cs| && cs[i] == VolumeNode
    requires Truthy(ctx.raw.volumeNodeConnectivity) && ShapeTested(ds, mesh, VolumeNode)
    ensures var before := ConnSweep(ds, mesh, t, ctx, cs[..i]).outcome;
      ConnSweep(ds, mesh, t, ctx, cs).outcome == if before.Raised? then before else Raised(NotImplemented)
    decreases i
  {
    if i > 0 {
      var step := ConnStep(ds, mesh, t, ctx, cs[0]);
      assert cs[..i][0] == cs[0] && cs[..i][1..] == cs[1..][..i - 1];
      if step.outcome.Done? {
        SweepVolumeUnsupported(ds, mesh, step.outcome.value, step.ctx, cs[1..], i - 1);
      }
    }
  }

  /**
    Volume connectivity is never validated: once stage 2 gets past its early
    returns, a present `volume_node_connectivity` always ends in an exception.
  */
  lemma VolumeConnectivityRaises(ds: Dataset, mesh: Mesh, ctx: Context)
    requires Truthy(ctx.raw.topologyDimension) && !MandatoryMissing(ctx.raw)
    requires Truthy(ctx.raw.volumeNodeConnectivity)
    ensures ConnectivityAttrs(ds, mesh, ctx).outcome.Raised?
    // When the volume array reaches the per-kind tests, the exception is the
    // unsupported-volume one, unless the edge or face step raised first.
    ensures ShapeTested(ds, mesh, VolumeNode) ==>
      var before := ConnSweep(ds, mesh, Tally(0, 0, []), ctx, Conns[..2]).outcome;
      ConnectivityAttrs(ds, mesh, ctx).outcome == Raised(if before.Raised? then before.fault else NotImplemented)
  {
    SweepVolumeRaises(ds, mesh, Tally(0, 0, []), ctx, Conns);
    if ShapeTested(ds, mesh, VolumeNode) {
      SweepVolumeUnsupported(ds, mesh, Tally(0, 0, []), ctx, Conns, 2);
    }
  }

  // ----- Stage 2: what it writes -----

  /** The array of `c` was found non-standard. */
  predicate OrderedNonStd(ds: Dataset, mesh: Mesh, raw: RawAttrs, c: Conn)
  {
    Truthy(RawConn(raw, c)) && ResolveShape(ds, mesh, c) == Done(Some(NonStd))
  }

  /**
    The context stage 2 leaves behind when it completes: `nedges`/`nfaces`
    become the dataset's count dimension exactly for an accepted array, and
    `edge_dimension`/`face_dimension` the named dimension exactly for a
    non-standard array whose mesh names a defined dimension. All else is kept.
  */
  function Enrich(ds: Dataset, mesh: Mesh, ctx: Context): (r: Context)
    ensures r.raw == ctx.raw && r.nodeCoordinates == ctx.nodeCoordinates
  {
    var raw := ctx.raw;
    if !Truthy(raw.topologyDimension) || MandatoryMissing(raw) then ctx
    else
      var edgeDim := DimensionLookup(ds, mesh, EdgeDimension);
      var faceDim := DimensionLookup(ds, mesh, FaceDimension);
      ctx.(
        nedges := if Accepts(ds, mesh, raw, EdgeNode) then Some(ds.dimensions["nedges"]) else ctx.nedges,
        nfaces := if Accepts(ds, mesh, raw, FaceNode) then Some(ds.dimensions["nfaces"]) else ctx.nfaces,
        edgeDimension :=
          if OrderedNonStd(ds, mesh, raw, EdgeNode) && edgeDim.Ok? then Some(edgeDim.value) else ctx.edgeDimension,
        faceDimension :=
          if OrderedNonStd(ds, mesh, raw, FaceNode) && faceDim.Ok? then Some(faceDim.value) else ctx.faceDimension)
  }

  /** The context one completed step of the sweep leaves for connectivity `c`. */
  lemma StepWrites(ds: Dataset, mesh: Mesh, t: Tally, ctx: Context, c: Conn)
    requires ConnStep(ds, mesh, t, ctx, c).outcome.Done?
    ensures var out := ConnStep(ds, mesh, t, ctx, c).ctx;
      && out.raw == ctx.raw && out.nodeCoordinates == ctx.nodeCoordinates
      && (c == EdgeNode ==> out.nfaces == ctx.nfaces && out.faceDimension == ctx.faceDimension)
      && (c == FaceNode ==> out.nedges == ctx.nedges && out.edgeDimension == ctx.edgeDimension)
      && (c == VolumeNode ==> out == ctx)
      && (c != VolumeNode ==>
            && (if c == EdgeNode then out.nedges else out.nfaces) ==
                 (if Accepts(ds, mesh, ctx.raw, c) then Some(ds.dimensions[CountName(c)])
                  else if c == EdgeNode then ctx.nedges else ctx.nfaces)
            && var dv := DimVarFor(c).value;
               var found := DimensionLookup(ds, mesh, dv);
               (if c == EdgeNode then out.edgeDimension else out.faceDimension) ==
                 (if OrderedNonStd(ds, mesh, ctx.raw, c) && found.Ok? then Some(found.value)
                  else if c == EdgeNode then ctx.edgeDimension else ctx.faceDimension))
  {
    if c == VolumeNode {
      assert Truthy(RawConn(ctx.raw, c)) ==> EdgeFaceCoords(ds, mesh, ctx, c).Raised?;
    }
  }

  /** When stage 2 completes, the context it leaves is `Enrich` of the one it found. */
  lemma ConnectivityEnriches(ds: Dataset, mesh: Mesh, ctx: Context)
    requires ConnectivityAttrs(ds, mesh, ctx).outcome.Done?
    ensures ConnectivityAttrs(ds, mesh, ctx).ctx == Enrich(ds, mesh, ctx)
  {
    if Truthy(ctx.raw.topologyDimension) && !MandatoryMissing(ctx.raw) {
      var t0 := Tally(0, 0, []);
      var s1 := ConnStep(ds, mesh, t0, ctx, EdgeNode);
      assert Conns[1..] == [FaceNode, VolumeNode];
      assert s1.outcome.Done?;
      var s2 := ConnStep(ds, mesh, s1.outcome.value, s1.ctx, FaceNode);
      assert [FaceNode, VolumeNode][1..] == [VolumeNode];
      assert s2.outcome.Done?;
      var s3 := ConnStep(ds, mesh, s2.outcome.value, s2.ctx, VolumeNode);
      assert [VolumeNode][1..] == [];
      assert s3.outcome.Done?;
      StepWrites(ds, mesh, t0, ctx, EdgeNode);
      StepWrites(ds, mesh, s1.outcome.value, s1.ctx, FaceNode);
      StepWrites(ds, mesh, s2.outcome.value, s2.ctx, VolumeNode);
      assert ConnectivityAttrs(ds, mesh, ctx).ctx == s3.ctx;
    }
  }

  /** Stage 2's writes are constants: enriching twice is enriching once. */
  lemma EnrichIdempotent(ds: Dataset, mesh: Mesh, ctx: Context)
    ensures Enrich(ds, mesh, Enrich(ds, mesh, ctx)) == Enrich(ds, mesh, ctx)
  {
  }

  /** A sweep's outcome depends on the context only through its raw attributes. */
  lemma {:induction false} SweepRawOnly(ds: Dataset, mesh: Mesh, t: Tally, ctx: Context, ctx': Context, cs: seq<Conn>)
    requires ctx.raw == ctx'.raw
    ensures ConnSweep(ds, mesh, t, ctx, cs).outcome == ConnSweep(ds, mesh, t, ctx', cs).outcome
    decreases |cs|
  {
    if cs != [] {
      var c := cs[0];
      var s := ConnStep(ds, mesh, t, ctx, c);
      var s' := ConnStep(ds, mesh, t, ctx', c);
      if Truthy(RawConn(ctx.raw, c)) && ResolveShape(ds, mesh, c).Done? {
        var shape := ResolveShape(ds, mesh, c);
        var ctx1 := RecordCount(ds, mesh, ctx, c);
        var ctx1' := RecordCount(ds, mesh, ctx', c);
        var ctx2 := if shape.value == Some(NonStd) then NonStdOrderDims(ds, mesh, ctx1, c, DimVarFor(c).value).ctx else ctx1;
        var ctx2' := if shape.value == Some(NonStd) then NonStdOrderDims(ds, mesh, ctx1', c, DimVarFor(c).value).ctx else ctx1';
        assert EdgeFaceCoords(ds, mesh, ctx2, c) == EdgeFaceCoords(ds, mesh, ctx2', c);
      }
      assert s.outcome == s'.outcome;
      if s.outcome.Done? {
        SweepRawOnly(ds, mesh, s.outcome.value, s.ctx, s'.ctx, cs[1..]);
      }
    }
  }

  /**
    Running stage 2 again on the context it enriched gives the same result and
    the same context: the double call in `check_run` is harmless for it.
  */
  lemma ConnectivityRerun(ds: Dataset, mesh: Mesh, ctx: Context)
    requires ConnectivityAttrs(ds, mesh, ctx).outcome.Done?
    ensures ConnectivityAttrs(ds, mesh, ConnectivityAttrs(ds, mesh, ctx).ctx) == ConnectivityAttrs(ds, mesh, ctx)
  {
    var first := ConnectivityAttrs(ds, mesh, ctx);
    ConnectivityEnriches(ds, mesh, ctx);
    if Truthy(ctx.raw.topologyDimension) && !MandatoryMissing(ctx.raw) {
      SweepRawOnly(ds, mesh, Tally(0, 0, []), ctx, first.ctx, Conns);
    }
    assert ConnectivityAttrs(ds, mesh, first.ctx).outcome == first.outcome;
    ConnectivityEnriches(ds, mesh, first.ctx);
    EnrichIdempotent(ds, mesh, ctx);
  }

  // ----- Stage 3 -----

  /** A name is recorded as missing exactly when it is listed and is not a dataset variable. */
  lemma {:induction false} MissingNamesMembers(ds: Dataset, names: seq<string>, x: string)
    ensures x in MissingNames(ds, names) <==> x in names && x !in ds.variables
    decreases |names|
  {
    if names != [] {
      var init := names[..|names| - 1];
      MissingNamesMembers(ds, init, x);
      assert names == init + [names[|names| - 1]];
    }
  }

  /** All listed names are found exactly when none is recorded missing. */
  lemma AllFound(ds: Dataset, names: seq<string>)
    ensures FoundCount(ds, names) == |names| <==> forall n :: n in names ==> n in ds.variables
  {
    if FoundCount(ds, names) != |names| {
      var x := MissingNames(ds, names)[0];
      MissingNamesMembers(ds, names, x);
    } else {
      forall n | n in names ensures n in ds.variables {
        MissingNamesMembers(ds, names, n);
      }
    }
  }

  /**
    Stage 3 when the names match the topology dimension in number: one
    sub-check per name, one point per name found, and the context records the
    missing names (a name is there iff it is listed and undefined).
  */
  lemma NodeCoordsCounting(ds: Dataset, mesh: Mesh, ctx: Context)
    requires Truthy(ctx.raw.topologyDimension) && NodeCoordinatesAttr in mesh.attributes
    requires IntValue(ctx.raw.topologyDimension) == Some(|Split(mesh.attributes[NodeCoordinatesAttr])|)
    ensures var names := Split(mesh.attributes[NodeCoordinatesAttr]);
      var r := NodeCoordsExist(ds, mesh, ctx);
      && r.outcome.value.outOf == |names|
      && r.outcome.value.score == FoundCount(ds, names)
      && r.ctx.nodeCoordinates == MissingNames(ds, names)
      && r.outcome.value.messages == NotFoundMessages(r.ctx.nodeCoordinates)
      && (forall x :: x in r.ctx.nodeCoordinates <==> x in names && x !in ds.variables)
  {
    var names := Split(mesh.attributes[NodeCoordinatesAttr]);
    forall x ensures x in MissingNames(ds, names) <==> x in names && x !in ds.variables {
      MissingNamesMembers(ds, names, x);
    }
  }

  /**
    Stage 3 otherwise: no topology dimension, no `node_coordinates` attribute,
    or a count mismatch each give one failed sub-check, and the context's node
    coordinates are left empty.
  */
  lemma NodeCoordsFailure(ds: Dataset, mesh: Mesh, ctx: Context)
    requires !Truthy(ctx.raw.topologyDimension) || NodeCoordinatesAttr !in mesh.attributes ||
             IntValue(ctx.raw.topologyDimension) != Some(|Split(mesh.attributes[NodeCoordinatesAttr])|)
    ensures var r := NodeCoordsExist(ds, mesh, ctx);
      r.outcome.value.score == 0 && r.outcome.value.outOf == 1 && |r.outcome.value.messages| == 1 &&
      r.ctx == ctx.(nodeCoordinates := [])
  {
  }

  /** Re-running stage 3 on the context it wrote gives the same result and context. */
  lemma NodeCoordsRerun(ds: Dataset, mesh: Mesh, ctx: Context)
    ensures NodeCoordsExist(ds, mesh, NodeCoordsExist(ds, mesh, ctx).ctx) == NodeCoordsExist(ds, mesh, ctx)
  {
  }

  /** The example pair: "lon lat" with dimension 2 and both variables defined scores 2 of 2. */
  lemma NodeCoordsLonLat(ds: Dataset, mesh: Mesh, ctx: Context)
    requires mesh.attributes == map[NodeCoordinatesAttr := "lon lat"]
    requires ctx.raw.topologyDimension == Some(IntVal(2))
    requires "lon" in ds.variables && "lat" in ds.variables
    ensures NodeCoordsExist(ds, mesh, ctx).outcome.value.score == 2
    ensures NodeCoordsExist(ds, mesh, ctx).outcome.value.outOf == 2
    ensures NodeCoordsExist(ds, mesh, ctx).ctx.nodeCoordinates == []
  {
    SplitJoin(["lon", "lat"]);
    assert Join(["lon", "lat"]) == "lon lat";
    assert ["lon", "lat"][..1] == ["lon"];
  }

  // ----- Stages 4 to 6 -----

  /**
    The edge/face-coordinates helper counts a single sub-check however many
    names it measures: two matching coordinate variables score 2 of 1.
  */
  lemma CoordsScoreExceedsOutOf()
    ensures var ds := Dataset(map["x" := Variable(["nedges"], [5]), "y" := Variable(["nedges"], [5])],
                              map["nedges" := Dimension("nedges", 5)]);
      var mesh := Mesh(0, map["edge_coordinates" := "x y"]);
      var ctx := Context(RawAttrs(Some(IntVal(1)), Some(TextVal("e2n")), None, None), None, None, None, None, []);
      EdgeFaceCoords(ds, mesh, ctx, EdgeNode) == Done(CheckResult(Low, 2, 1, EdgeCoordsDesc, []))
  {
    SplitJoin(["x", "y"]);
    assert Join(["x", "y"]) == "x y";
  }

  /** Stage 4 is inapplicable (nothing scored, nothing counted) unless both counts were derived. */
  lemma EdgeFaceInapplicable(ds: Dataset, mesh: Mesh, ctx: Context)
    requires !DimTruthy(ctx.nedges) || !DimTruthy(ctx.nfaces) || AdjacencyAttr(EdgeFace) !in mesh.attributes
    ensures EdgeFaceConn(ds, mesh, ctx).Done?
    ensures EdgeFaceConn(ds, mesh, ctx).value.outOf == 0 && EdgeFaceConn(ds, mesh, ctx).value.score == 0
  {
  }

  /** Stage 4 when applicable: one sub-check, passed exactly by shape `(nedges.size, 2)`. */
  lemma EdgeFaceGrading(ds: Dataset, mesh: Mesh, ctx: Context)
    requires DimTruthy(ctx.nedges) && DimTruthy(ctx.nfaces) && AdjacencyAttr(EdgeFace) in mesh.attributes
    requires mesh.attributes[AdjacencyAttr(EdgeFace)] in ds.variables
    requires |ds.variables[mesh.attributes[AdjacencyAttr(EdgeFace)]].shape| == 2
    ensures var r := EdgeFaceConn(ds, mesh, ctx);
      r.Done? && r.value.outOf == 1 &&
      (r.value.score == 1 <==> ds.variables[mesh.attributes[AdjacencyAttr(EdgeFace)]].shape == [ctx.nedges.value.size, 2])
  {
  }

  /** Stages 5 and 6 are inapplicable unless `nfaces` was derived and the attribute is present. */
  lemma FaceAdjacencyInapplicable(ds: Dataset, mesh: Mesh, ctx: Context, a: Adjacency)
    requires !DimTruthy(ctx.nfaces) || AdjacencyAttr(a) !in mesh.attributes
    ensures FecFfc(ds, mesh, ctx, a).Done?
    ensures FecFfc(ds, mesh, ctx, a).value.outOf == 0 && !FecFfc(ds, mesh, ctx, a).value.valid
  {
  }

  /**
    Stages 5 and 6 when applicable: one sub-check, passed exactly by shape
    `(nfaces.size, maxnumnodesperface.size)`; without `maxnumnodesperface` the
    check raises exactly when the first extent matches.
  */
  lemma FaceAdjacencyGrading(ds: Dataset, mesh: Mesh, ctx: Context, a: Adjacency)
    requires DimTruthy(ctx.nfaces) && AdjacencyAttr(a) in mesh.attributes
    requires mesh.attributes[AdjacencyAttr(a)] in ds.variables
    requires |ds.variables[mesh.attributes[AdjacencyAttr(a)]].shape| == 2
    ensures var shape := ds.variables[mesh.attributes[AdjacencyAttr(a)]].shape;
      var r := FecFfc(ds, mesh, ctx, a);
      && (MaxNodesPerFaceName in ds.dimensions ==>
            r.Done? && r.value.outOf == 1 &&
            (r.value.valid <==> shape == [ctx.nfaces.value.size, ds.dimensions[MaxNodesPerFaceName].size]))
      && (MaxNodesPerFaceName !in ds.dimensions ==>
            (r.Raised? <==> shape[0] == ctx.nfaces.value.size))
  {
  }
}
