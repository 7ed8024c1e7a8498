/**
  The shape/orientation resolver (`_validate_nc_shape`) and the
  dimension-requirement resolver (`__check_edge_face_dim__`,
  `__check_nonstd_order_dims__`), as functions of the dataset and the mesh.
*/
module Resolvers {
  import opened Wrappers
  import opened DatasetView
  import opened Conventions
  import opened Results
  import opened MeshContext

  datatype Orientation = Regular | NonStd

  /**
    The lookups of checker.py:526-534: the two dimensions of the array that the
    mesh's `c` attribute names. None when the attribute is absent; an exception
    when the array or one of its dimensions is missing, or it is not 2-D.
  */
  function ArrayDims(ds: Dataset, mesh: Mesh, c: Conn): (r: Outcome<Option<(Dimension, Dimension)>>)
    ensures r == Done(None) <==> ConnAttr(c) !in mesh.attributes
    ensures r.Done? && r.value.Some? ==>
      && ConnAttr(c) in mesh.attributes && mesh.attributes[ConnAttr(c)] in ds.variables
      && var dims := ds.variables[mesh.attributes[ConnAttr(c)]].dimensions;
      && |dims| == 2 && dims[0] in ds.dimensions && dims[1] in ds.dimensions
      && r.value.value == (ds.dimensions[dims[0]], ds.dimensions[dims[1]])
    // Each lookup that can fail raises its own exception, and when none fails
    // the two dimensions are returned.
    ensures ConnAttr(c) in mesh.attributes && mesh.attributes[ConnAttr(c)] !in ds.variables ==>
      r == Raised(NoneHasNoAttribute)
    ensures ConnAttr(c) in mesh.attributes && mesh.attributes[ConnAttr(c)] in ds.variables ==>
      var dims := ds.variables[mesh.attributes[ConnAttr(c)]].dimensions;
      && (|dims| != 2 ==> r == Raised(UnpackMismatch))
      && (|dims| == 2 && dims[0] !in ds.dimensions ==> r == Raised(MissingKey(dims[0])))
      && (|dims| == 2 && dims[0] in ds.dimensions && dims[1] !in ds.dimensions ==>
            r == Raised(MissingKey(dims[1])))
      && (|dims| == 2 && dims[0] in ds.dimensions && dims[1] in ds.dimensions ==>
            r == Done(Some((ds.dimensions[dims[0]], ds.dimensions[dims[1]]))))
  {
    if ConnAttr(c) !in mesh.attributes then Done(None)
    else
      var name := mesh.attributes[ConnAttr(c)];
      if name !in ds.variables then Raised(NoneHasNoAttribute)
      else
        var dims := ds.variables[name].dimensions;
        if |dims| != 2 then Raised(UnpackMismatch)
        else if dims[0] !in ds.dimensions then Raised(MissingKey(dims[0]))
        else if dims[1] !in ds.dimensions then Raised(MissingKey(dims[1]))
        else Done(Some((ds.dimensions[dims[0]], ds.dimensions[dims[1]])))
  }

  /** The regular test of checker.py:555. */
  predicate RegularShape(c: Conn, dim1: Dimension, dim2: Dimension)
    requires c != VolumeNode
  {
    dim1.name == CountName(c) && dim2.size == FixedCount(c)
  }

  /** The non-standard test of checker.py:559. */
  predicate NonStdShape(c: Conn, dim1: Dimension, dim2: Dimension)
    requires c != VolumeNode
  {
    dim1.size == FixedCount(c) && dim2.name == CountName(c)
  }

  /**
    The lookups of checker.py:526-534 succeed and the guard at checker.py:537
    lets the array through, so the resolver reaches its per-kind tests.
  */
  predicate ShapeTested(ds: Dataset, mesh: Mesh, c: Conn)
  {
    var dims := ArrayDims(ds, mesh, c);
    dims.Done? && dims.value.Some?
    && dims.value.value.0.name in ds.dimensions && dims.value.value.1.name in ds.dimensions
  }

  /**
    `_validate_nc_shape` without its context write: the orientation of the
    array, None for `(False, None)`. Volume connectivity never validates, and
    a valid array always has its count dimension in the dataset.
  */
  function ResolveShape(ds: Dataset, mesh: Mesh, c: Conn): (r: Outcome<Option<Orientation>>)
    ensures c == VolumeNode ==> r.Raised? || r.value.None?
    ensures r.Done? && r.value.Some? ==> c != VolumeNode && CountName(c) in ds.dimensions
    ensures r.Done? ==> ArrayDims(ds, mesh, c).Done?
    ensures ArrayDims(ds, mesh, c).Raised? ==> r == Raised(ArrayDims(ds, mesh, c).fault)
    // The unsupported-volume exception is raised exactly when a volume array
    // reaches the per-kind tests; it never stands for a broken dataset.
    ensures r == Raised(NotImplemented) <==> c == VolumeNode && ShapeTested(ds, mesh, c)
    ensures ArrayDims(ds, mesh, c).Done? && !ShapeTested(ds, mesh, c) ==> r == Done(None)
  {
    match ArrayDims(ds, mesh, c)
    case Raised(f) => Raised(f)
    case Done(None) => Done(None)
    case Done(Some((dim1, dim2))) =>
      if dim1.name !in ds.dimensions || dim2.name !in ds.dimensions then Done(None)
      else if c == VolumeNode then Raised(NotImplemented)
      else if RegularShape(c, dim1, dim2) then Done(Some(Regular))
      else if NonStdShape(c, dim1, dim2) then Done(Some(NonStd))
      else Done(None)
  }

  /**
    The context after `_validate_nc_shape`: the count dimension is recorded
    exactly when the array is valid.
  */
  function RecordCount(ds: Dataset, mesh: Mesh, ctx: Context, c: Conn): (r: Context)
    ensures r.raw == ctx.raw && r.nodeCoordinates == ctx.nodeCoordinates
    ensures r.edgeDimension == ctx.edgeDimension && r.faceDimension == ctx.faceDimension
    ensures ResolveShape(ds, mesh, c).Done? && ResolveShape(ds, mesh, c).value.Some? ==>
      if c == EdgeNode then r == ctx.(nedges := Some(ds.dimensions["nedges"]))
      else r == ctx.(nfaces := Some(ds.dimensions["nfaces"]))
    ensures !(ResolveShape(ds, mesh, c).Done? && ResolveShape(ds, mesh, c).value.Some?) ==> r == ctx
  {
    var shape := ResolveShape(ds, mesh, c);
    if shape.Done? && shape.value.Some? then WithCount(ctx, c, ds.dimensions[CountName(c)]) else ctx
  }

  /**
    For edge or face connectivity whose lookups succeed in a well-formed
    dataset: the name test comes first, the swapped test second, and anything
    else is invalid. The guard at checker.py:537 never fires there.
  */
  lemma ResolveShapeCases(ds: Dataset, mesh: Mesh, c: Conn, dim1: Dimension, dim2: Dimension)
    requires WellFormed(ds) && c != VolumeNode
    requires ArrayDims(ds, mesh, c) == Done(Some((dim1, dim2)))
    ensures ResolveShape(ds, mesh, c) == Done(Some(Regular)) <==> RegularShape(c, dim1, dim2)
    ensures ResolveShape(ds, mesh, c) == Done(Some(NonStd)) <==>
      !RegularShape(c, dim1, dim2) && NonStdShape(c, dim1, dim2)
    ensures ResolveShape(ds, mesh, c) == Done(None) <==>
      !RegularShape(c, dim1, dim2) && !NonStdShape(c, dim1, dim2)
  {
    var dims := ds.variables[mesh.attributes[ConnAttr(c)]].dimensions;
    assert dim1 == ds.dimensions[dims[0]] && dim2 == ds.dimensions[dims[1]];
  }

  /** A missing connectivity attribute is the plain `(False, None)` answer and writes nothing. */
  lemma ResolveShapeAbsent(ds: Dataset, mesh: Mesh, ctx: Context, c: Conn)
    requires ConnAttr(c) !in mesh.attributes
    ensures ResolveShape(ds, mesh, c) == Done(None)
    ensures RecordCount(ds, mesh, ctx, c) == ctx
  {
  }

  /**
    `__check_edge_face_dim__` without its write: the dimension the mesh's
    `edge_dimension`/`face_dimension` attribute names, or the message for a
    missing attribute or for a name the dataset does not define.
  */
  function DimensionLookup(ds: Dataset, mesh: Mesh, dv: DimVar): (r: Result<Dimension, Message>)
    ensures r.Ok? <==> DimVarAttr(dv) in mesh.attributes && mesh.attributes[DimVarAttr(dv)] in ds.dimensions
    ensures r.Ok? ==> r.value == ds.dimensions[mesh.attributes[DimVarAttr(dv)]]
    ensures r.Err? && DimVarAttr(dv) !in mesh.attributes ==> r.error == MissingDimensionAttribute(dv)
    ensures r.Err? && DimVarAttr(dv) in mesh.attributes ==> r.error == UndefinedDimension
  {
    if DimVarAttr(dv) !in mesh.attributes then Err(MissingDimensionAttribute(dv))
    else
      var name := mesh.attributes[DimVarAttr(dv)];
      if name !in ds.dimensions then Err(UndefinedDimension) else Ok(ds.dimensions[name])
  }

  /** The context after `__check_edge_face_dim__`: written only on success. */
  function RecordDimVar(ds: Dataset, mesh: Mesh, ctx: Context, dv: DimVar): (r: Context)
    ensures r.raw == ctx.raw && r.nodeCoordinates == ctx.nodeCoordinates
    ensures r.nedges == ctx.nedges && r.nfaces == ctx.nfaces
    ensures DimensionLookup(ds, mesh, dv).Err? ==> r == ctx
    ensures DimensionLookup(ds, mesh, dv).Ok? ==>
      (if dv == EdgeDimension then r.edgeDimension else r.faceDimension) == Some(DimensionLookup(ds, mesh, dv).value)
    ensures (if dv == EdgeDimension then r.faceDimension else r.edgeDimension) ==
            (if dv == EdgeDimension then ctx.faceDimension else ctx.edgeDimension)
  {
    match DimensionLookup(ds, mesh, dv)
    case Ok(d) => WithDimVar(ctx, dv, d)
    case Err(_) => ctx
  }

  /**
    `__check_nonstd_order_dims__`: one sub-check, scored when the dimension
    requirement is met, otherwise carrying the lookup's message.
  */
  function NonStdOrderDims(ds: Dataset, mesh: Mesh, ctx: Context, c: Conn, dv: DimVar): (r: Run<CheckResult>)
    ensures r.outcome.Done? && r.outcome.value.level == Medium && r.outcome.value.outOf == 1
    ensures r.outcome.value.score == 1 <==> DimensionLookup(ds, mesh, dv).Ok?
    ensures r.outcome.value.score <= 1
    ensures |r.outcome.value.messages| == 1 - r.outcome.value.score
    ensures r.ctx == RecordDimVar(ds, mesh, ctx, dv)
  {
    var desc := NonStdOrderDesc(dv, c);
    match DimensionLookup(ds, mesh, dv)
    case Ok(_) => Run(Done(CheckResult(Medium, 1, 1, desc, [])), RecordDimVar(ds, mesh, ctx, dv))
    case Err(m) => Run(Done(CheckResult(Medium, 0, 1, desc, [m])), ctx)
  }
}
