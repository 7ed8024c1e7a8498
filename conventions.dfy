/** The UGRID attribute and dimension names the checker works with. */
module Conventions {
  import opened Wrappers

  /** The three node-connectivity attributes, in the order the checker visits them. */
  datatype Conn = EdgeNode | FaceNode | VolumeNode

  /** The explicit connectivity order of `conns` (checker.py:87-91). */
  const Conns: seq<Conn> := [EdgeNode, FaceNode, VolumeNode]

  function ConnAttr(c: Conn): string
  {
    match c
    case EdgeNode => "edge_node_connectivity"
    case FaceNode => "face_node_connectivity"
    case VolumeNode => "volume_node_connectivity"
  }

  /** The topology dimension that makes `c` mandatory (`dims`, checker.py:92). */
  function DeclaredDim(c: Conn): int
  {
    match c
    case EdgeNode => 1
    case FaceNode => 2
    case VolumeNode => 3
  }

  /** Name of the dimension that counts the elements of `c` (`_dim1`, checker.py:547-550). */
  function CountName(c: Conn): string
    requires c != VolumeNode
  {
    if c == EdgeNode then "nedges" else "nfaces"
  }

  /** Number of nodes per element of `c` (`_dim2size`, checker.py:548-551). */
  function FixedCount(c: Conn): nat
    requires c != VolumeNode
  {
    if c == EdgeNode then 2 else 3
  }

  /** The `*_dimension` attributes required by non-standard ordering. */
  datatype DimVar = EdgeDimension | FaceDimension

  function DimVarAttr(dv: DimVar): string
  {
    if dv == EdgeDimension then "edge_dimension" else "face_dimension"
  }

  /** `dim_map` (checker.py:451-454): volume connectivity has no entry. */
  function DimVarFor(c: Conn): Option<DimVar>
  {
    match c
    case EdgeNode => Some(EdgeDimension)
    case FaceNode => Some(FaceDimension)
    case VolumeNode => None
  }

  /** The optional `edge_coordinates` / `face_coordinates` attributes. */
  datatype Coords = EdgeCoordinates | FaceCoordinates

  function CoordsAttr(k: Coords): string
  {
    if k == EdgeCoordinates then "edge_coordinates" else "face_coordinates"
  }

  /** `coordmap` (checker.py:356-359): volume connectivity has no entry. */
  function CoordsFor(c: Conn): Option<Coords>
  {
    match c
    case EdgeNode => Some(EdgeCoordinates)
    case FaceNode => Some(FaceCoordinates)
    case VolumeNode => None
  }

  /** `varmap` (checker.py:361-364): the dataset dimension a coordinate variable must match. */
  function CoordsCountName(k: Coords): string
  {
    if k == EdgeCoordinates then "nedges" else "nfaces"
  }

  /** The optional adjacency arrays checked by stages 4 to 6. */
  datatype Adjacency = EdgeFace | FaceEdge | FaceFace

  function AdjacencyAttr(a: Adjacency): string
  {
    match a
    case EdgeFace => "edge_face_connectivity"
    case FaceEdge => "face_edge_connectivity"
    case FaceFace => "face_face_connectivity"
  }

  const NodeCoordinatesAttr: string := "node_coordinates"
  const MaxNodesPerFaceName: string := "maxnumnodesperface"
}
