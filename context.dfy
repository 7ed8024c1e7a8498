/**
  The per-mesh context record (`self.meshes[mesh]`): the raw attribute values
  copied at discovery, and the slots the checks fill in as they run.
*/
module MeshContext {
  import opened Wrappers
  import opened DatasetView
  import opened Conventions
  import opened Results

  /** Raw attribute values copied from the mesh at discovery; the checks only read them. */
  datatype RawAttrs = RawAttrs(
    topologyDimension: Option<AttrValue>,
    edgeNodeConnectivity: Option<AttrValue>,
    faceNodeConnectivity: Option<AttrValue>,
    volumeNodeConnectivity: Option<AttrValue>)

  function RawConn(raw: RawAttrs, c: Conn): Option<AttrValue>
  {
    match c
    case EdgeNode => raw.edgeNodeConnectivity
    case FaceNode => raw.faceNodeConnectivity
    case VolumeNode => raw.volumeNodeConnectivity
  }

  /**
    The whole record. `nedges`, `nfaces`, `edgeDimension` and `faceDimension`
    are written by stage 2; `nodeCoordinates` by stage 3.
  */
  datatype Context = Context(
    raw: RawAttrs,
    nedges: Option<Dimension>,
    nfaces: Option<Dimension>,
    edgeDimension: Option<Dimension>,
    faceDimension: Option<Dimension>,
    nodeCoordinates: seq<string>)

  /** `self.meshes[mesh][_dim1] = ...` (checker.py:557, 560). */
  function WithCount(ctx: Context, c: Conn, d: Dimension): (r: Context)
    requires c != VolumeNode
    ensures r.raw == ctx.raw && r.nodeCoordinates == ctx.nodeCoordinates
    ensures r.edgeDimension == ctx.edgeDimension && r.faceDimension == ctx.faceDimension
    ensures (if c == EdgeNode then r.nedges else r.nfaces) == Some(d)
    ensures (if c == EdgeNode then r.nfaces else r.nedges) == (if c == EdgeNode then ctx.nfaces else ctx.nedges)
  {
    if c == EdgeNode then ctx.(nedges := Some(d)) else ctx.(nfaces := Some(d))
  }

  /** `self.meshes[mesh][dim_var] = ...` (checker.py:489). */
  function WithDimVar(ctx: Context, dv: DimVar, d: Dimension): (r: Context)
    ensures r.raw == ctx.raw && r.nodeCoordinates == ctx.nodeCoordinates
    ensures r.nedges == ctx.nedges && r.nfaces == ctx.nfaces
    ensures (if dv == EdgeDimension then r.edgeDimension else r.faceDimension) == Some(d)
    ensures (if dv == EdgeDimension then r.faceDimension else r.edgeDimension) ==
            (if dv == EdgeDimension then ctx.faceDimension else ctx.edgeDimension)
  {
    if dv == EdgeDimension then ctx.(edgeDimension := Some(d)) else ctx.(faceDimension := Some(d))
  }

  /** The context after a check ran, with what it produced. */
  datatype Run<+T> = Run(outcome: Outcome<T>, ctx: Context)
}
