/** Graded check results, their messages, and the exceptions the source lets escape. */
module Results {
  import opened Wrappers
  import opened DatasetView
  import opened Conventions

  /** `BaseCheck.HIGH`, `MEDIUM`, `LOW`. */
  datatype Level = High | Medium | Low

  /** The fixed description each check attaches to its result. */
  datatype Description =
    | TopologyDimDesc
    | ConnectivityDesc
    | NodeCoordsDesc
    | EdgeFaceDesc
    | FaceEdgeDesc
    | FaceFaceDesc
    | RunDesc
    | NonStdOrderDesc(dimVar: DimVar, conn: Conn)
    | EdgeCoordsDesc

  /** One tag per message the source builds; only their number and order matter. */
  datatype Message =
    | MissingTopologyDimension
    | InvalidTopologyDimension(value: Option<AttrValue>)
    | ConnectivityUnverifiable
    | InvalidConnectivityArray(conn: Conn)
    | NoTopologyDimension
    | NodeCoordinateNotInVariables(name: string)
    | NodeCoordinateCountMismatch(value: Option<AttrValue>)
    | NoNodeCoordinates
    | NoOptional(adjacency: Adjacency)
    | IncorrectShape(adjacency: Adjacency, dim1: nat, dim2: nat)
    | Blank
    | FacesUndefined
    | NoConnectivity(conn: Conn)
    | OptionalAttribute
    | CoordinateLengthMismatch(coords: Coords)
    | MissingDimensionAttribute(dimVar: DimVar)
    | UndefinedDimension
    | NoMeshes

  /** `make_result(level, score, out_of, desc, messages)`. */
  datatype CheckResult = CheckResult(level: Level, score: nat, outOf: nat,
                                     description: Description, messages: seq<Message>)

  /** Python exceptions the checker does not catch. */
  datatype Fault =
    | MissingKey(key: string)      // KeyError from a dict lookup
    | NoneHasNoAttribute           // attribute access on None
    | UnpackMismatch               // a tuple that is not a pair
    | Unsized                      // len() of a scalar variable
    | NotImplemented               // volume connectivity

  /** What a check produced: a value, or an exception that escapes it. */
  datatype Outcome<+T> = Done(value: T) | Raised(fault: Fault)
}
