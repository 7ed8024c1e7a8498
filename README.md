# UGRID mesh checker, modelled in Dafny

This project models the mesh-topology checker of the `cc_plugin_ugrid`
compliance-checker plugin (`UgridChecker` in `cc_plugin_ugrid/checker.py`). The
checker validates each mesh-topology variable of a netCDF dataset against the
UGRID Conventions 1.0. It runs six checks per mesh:

1. the topology dimension;
2. the connectivity attributes;
3. the node coordinates;
4. the edge-face connectivity;
5. the face-edge connectivity;
6. the face-face connectivity.

Each check returns a result: a level, a `score`, an `out_of` and a list of
messages.

The checker keeps a registry `self.meshes` that maps each mesh to a context
record, and the checks fill that record in as they run:

- stage 2 writes `nedges`/`nfaces` through the shape resolver `_validate_nc_shape`;
- stage 2 writes `edge_dimension`/`face_dimension` through `__check_edge_face_dim__`;
- stage 3 resets `node_coordinates` and fills it with the names it could not find;
- stages 4 to 6 read `nedges` and `nfaces` back.

`check_run` walks the meshes in registry order. It calls every check twice,
keeps the second result, and appends one summary result.

## Files

- `dataset.dfy` holds the read-only dataset view: variables, dimensions and
  mesh attributes. It also models the Python behaviour the checks depend on:
  truthiness, `==` between a number and an int, and `str.split(" ")` together
  with its inverse `" ".join`.
- `conventions.dfy` holds the checker's fixed lookup tables as total functions:
  - `Conns` and `DeclaredDim` are the `conns`/`dims` lists (checker.py:87-92);
  - `CountName` and `FixedCount` are `_dim1`/`_dim2size` (checker.py:546-551);
  - `DimVarFor` is `dim_map` (checker.py:451-454);
  - `CoordsFor` is `coordmap` (checker.py:356-359);
  - `CoordsCountName` is `varmap` (checker.py:361-364);
  - `AdjacencyAttr` names the attributes that stages 4 to 6 read.

  A missing dictionary entry (volume in `dim_map` or `coordmap`) is `None`.
- `context.dfy` holds the per-mesh context record.
- `results.dfy` holds check results and messages. A Python exception that
  escapes a check becomes an explicit `Raised(fault)` outcome.
- `resolvers.dfy` holds the shape resolver and the dimension-requirement
  helpers as pure functions. Each returns its result together with the context
  it leaves.
- `stages.dfy` holds the six stages and the edge/face-coordinates helper as
  pure functions.
- `stage_props.dfy` holds the lemmas about the stages: counting, the context
  they leave, and the effect of re-running them.
- `orchestrator.dfy` holds `check_run` as a function over a stage runner. It
  also holds the proof that the double call is the same as a single call, and
  the closed form of one mesh's six results.
- `checker.dfy` holds the class `UgridChecker`. Its `meshes` field is the
  registry, and its methods update that field in place. The methods that loop
  in the source loop here too:
  - the connectivity sweep;
  - the node-coordinate names;
  - the coordinate variables;
  - the mandatory-connectivity search;
  - the two loops of `check_run`.

  Each method is proved to compute what the matching function in
  `stages.dfy`, `resolvers.dfy` or `orchestrator.dfy` specifies.

Where the documented behaviour and the code differ, the model follows the code:

- **Missing mandatory connectivity.** When the mandatory connectivity is
  missing, stage 2 builds a message and never appends it, so the result has no
  messages (`StageProps.MandatoryConnectivityMissing`).
- **Missing `maxnumnodesperface`.** Stages 5 and 6 do not test for this
  dimension up front. The code only reads its size when the first extent
  already matches `nfaces`, and it raises then
  (`StageProps.FaceAdjacencyGrading`).
- **Coordinate score.** The edge/face-coordinates helper counts one sub-check
  however many coordinate names it measures, so two matching variables score
  2 of 1 (`StageProps.CoordsScoreExceedsOutOf`). Stage 2 discards that
  result and keeps only its exceptions, so the reported results are not
  affected.

## Model

| member | source | states |
|---|---|---|
| DatasetView.IntValue | cc_plugin_ugrid/checker.py:43 | the integer a topology dimension equals under Python `==`: an int gives itself, a real gives its value exactly when it is integral, text and absence give none; truthiness agrees with being non-zero |
| DatasetView.Truthy | cc_plugin_ugrid/checker.py:95-102 | Python truthiness of an attribute value: None, 0, 0.0 and the empty string are false (a definition; its use is stated by `ConnectivityWithoutTopology`, `Present`, `NodeCoordsFailure` and `IntValue`) |
| DatasetView.DimTruthy | cc_plugin_ugrid/checker.py:197-198 | truthiness of a context slot holding a dimension: None is false and so is a dimension of size 0 (a definition; its use is stated by `EdgeFaceInapplicable` and `FaceAdjacencyInapplicable`) |
| DatasetView.Split | cc_plugin_ugrid/checker.py:153 | `str.split(" ")` always yields at least one piece; its other properties are the lemmas below |
| DatasetView.SplitPieces | cc_plugin_ugrid/checker.py:153 | splitting on single spaces gives one piece more than there are spaces, and no piece contains a space |
| DatasetView.JoinSplit | cc_plugin_ugrid/checker.py:153 | joining the pieces of a split with single spaces gives back the original string |
| DatasetView.SplitJoin | cc_plugin_ugrid/checker.py:380 | splitting a space-joined list of space-free names gives back exactly that list |
| DatasetView.SplitWord | cc_plugin_ugrid/checker.py:153 | a name without spaces splits into itself alone |
| DatasetView.SplitWordThenSpace | cc_plugin_ugrid/checker.py:153 | a space-free word followed by a space becomes a piece of its own, and the rest is split independently |
| Resolvers.ArrayDims | cc_plugin_ugrid/checker.py:519-534 | `(False, None)` without an exception exactly when the connectivity attribute is missing; a connectivity variable the dataset lacks raises the attribute error on `None`, an array that is not 2-D the unpacking error, and an undefined first or second dimension the key error for that name; when every lookup succeeds the two dimension objects are returned |
| Resolvers.ResolveShape | cc_plugin_ugrid/checker.py:499-562 | volume connectivity is never accepted; the unsupported-volume `NotImplementedError` is raised exactly when a volume array passes the lookups and the guard at 537, so it is never confused with a broken dataset; lookups that succeed but fail that guard give `(False, None)`; an accepted array has its count dimension in the dataset; a failed lookup's exception propagates unchanged |
| Resolvers.RecordCount | cc_plugin_ugrid/checker.py:555-562 | the context gains `nedges` (edge) or `nfaces` (face), set to the dataset dimension of that name, exactly when the array is accepted; otherwise it is unchanged, and no other slot is ever touched |
| Resolvers.ResolveShapeCases | cc_plugin_ugrid/checker.py:537-562 | for edge or face connectivity in a well-formed dataset: `"regular"` iff dim1 is the count dimension and dim2 has the fixed size 2 or 3; `"nonstd"` iff the regular test fails and the swapped test holds; `(False, None)` iff neither holds |
| Resolvers.ResolveShapeAbsent | cc_plugin_ugrid/checker.py:519-528 | a missing connectivity attribute gives `(False, None)` and leaves the context unchanged |
| Resolvers.DimensionLookup | cc_plugin_ugrid/checker.py:469-497 | succeeds iff the mesh has the `edge_dimension`/`face_dimension` attribute and it names a dataset dimension, then yields that dimension; a missing attribute and an undefined dimension give their own distinct messages |
| Resolvers.RegularShape | cc_plugin_ugrid/checker.py:555 | the regular test: dim1 is named `nedges`/`nfaces` and dim2 has size 2/3 (a definition; its use is stated by `ResolveShapeCases`) |
| Resolvers.NonStdShape | cc_plugin_ugrid/checker.py:559 | the swapped test: dim1 has size 2/3 and dim2 is named `nedges`/`nfaces` (a definition; its use is stated by `ResolveShapeCases`) |
| Resolvers.ShapeTested | cc_plugin_ugrid/checker.py:531-538 | the lookups succeed and both dimension names pass the guard at 537, so the resolver reaches its per-kind tests (a definition; its use is stated by `ResolveShape` and `VolumeConnectivityRaises`) |
| Resolvers.RecordDimVar | cc_plugin_ugrid/checker.py:486-497 | on success the requested `edge_dimension`/`face_dimension` slot holds the looked-up dimension; the other slot, the counts, the raw attributes and the node coordinates never change; on either failure the context is unchanged |
| MeshContext.WithCount | cc_plugin_ugrid/checker.py:557-560 | the write of `nedges` (edge) or `nfaces` (face): that slot holds the given dimension and every other slot is kept |
| MeshContext.WithDimVar | cc_plugin_ugrid/checker.py:489 | the write of `edge_dimension` or `face_dimension`: that slot holds the given dimension and every other slot is kept |
| Resolvers.NonStdOrderDims | cc_plugin_ugrid/checker.py:435-467 | one medium-level sub-check, scored iff the dimension requirement is met, with exactly one message when it fails and none when it passes; the context is the one the requirement leaves |
| Stages.ValidTopologyDim | cc_plugin_ugrid/checker.py:43 | `topology_dimension in (1, 2, 3)` under Python equality (a definition; its use is stated by `TopologyDim`) |
| Stages.TopologyDim | cc_plugin_ugrid/checker.py:28-49 | `out_of` is 1, `score` is 1 iff the value equals 1, 2 or 3; a falsy value draws two messages, another invalid value one, a valid value none |
| Stages.Measurable | cc_plugin_ugrid/checker.py:381-382 | a coordinate name the loop can measure without an exception: a variable with a length, with the count dimension defined (a definition; its use is stated by `CoordSweep`) |
| Stages.LengthMatches | cc_plugin_ugrid/checker.py:380-387 | the number of listed names whose variable's length equals the count dimension's size, never more than the names listed |
| Stages.CoordSweep | cc_plugin_ugrid/checker.py:380-387 | `out_of` stays 1; the loop raises iff some listed name is not a variable, has no length, or the count dimension is missing; otherwise the score grows by `LengthMatches` and one length-mismatch message is appended per other name, after the earlier messages |
| Stages.EdgeFaceCoords | cc_plugin_ugrid/checker.py:327-389 | an absent connectivity is one unscored sub-check with one message; present volume connectivity raises, because the coordinate map has no volume entry; a missing coordinate attribute is 0 of 1 with the optional-attribute message; otherwise it raises iff a listed name cannot be measured, and else scores `LengthMatches` of 1 with one mismatch message per other name |
| Stages.ConnStep | cc_plugin_ugrid/checker.py:101-119 | a step never loses points and adds at most as many points as sub-checks; it never touches the raw attributes or the node coordinates |
| Stages.ConnSweep | cc_plugin_ugrid/checker.py:101-119 | the same bounds over the whole remaining list: points added never exceed sub-checks added |
| Stages.MandatoryMissing | cc_plugin_ugrid/checker.py:94-98 | the early-return search: some connectivity is falsy while the topology dimension equals its declared dimension (a definition; spelled out by `MandatoryMissingCases`) |
| Stages.ConnectivityAttrs | cc_plugin_ugrid/checker.py:51-121 | a completed stage 2 is a high-level result with `score <= out_of`, and it leaves the raw attributes and node coordinates alone |
| Stages.MissingNames | cc_plugin_ugrid/checker.py:155-158 | the recorded names are never more than the listed names |
| Stages.FoundCount | cc_plugin_ugrid/checker.py:155-162 | found names plus missing names make up every listed name |
| Stages.NotFoundMessages | cc_plugin_ugrid/checker.py:158-160 | exactly one "not in variables" message per missing name, in the same order |
| Stages.NodeCoordsExist | cc_plugin_ugrid/checker.py:123-175 | stage 3 never raises, counts at least one sub-check and never scores more than it counts; it touches only `node_coordinates`, and recorded names plus score never exceed `out_of` |
| Stages.EdgeFaceConn | cc_plugin_ugrid/checker.py:177-216 | a completed stage 4 is low-level with `score <= out_of <= 1` |
| Stages.FecFfc | cc_plugin_ugrid/checker.py:391-433 | counts at most one sub-check; a valid answer has counted one and carries the empty message |
| Stages.AdjacencyResult | cc_plugin_ugrid/checker.py:239-249 | stages 5 and 6 complete exactly when the helper does; they take its count, score 1 iff it was valid, and always append its one message |
| Stages.FaceEdgeConn | cc_plugin_ugrid/checker.py:218-249 | `score <= out_of <= 1` and exactly one message |
| Stages.FaceFaceConn | cc_plugin_ugrid/checker.py:251-278 | `score <= out_of <= 1` and exactly one message |
| StageProps.ConnectivityWithoutTopology | cc_plugin_ugrid/checker.py:80-84 | without a topology dimension, stage 2 is exactly `score=0, out_of=1` with one message, and the context is unchanged |
| StageProps.MandatoryConnectivityMissing | cc_plugin_ugrid/checker.py:94-98 | when the connectivity that the declared dimension mandates is falsy, stage 2 is exactly `score=0, out_of=1` with no message, and the context is unchanged |
| StageProps.MandatoryMissingCases | cc_plugin_ugrid/checker.py:86-98 | the early return fires iff the topology dimension equals 1 with a falsy edge connectivity, 2 with a falsy face connectivity, or 3 with a falsy volume connectivity |
| StageProps.Present | cc_plugin_ugrid/checker.py:102 | a connectivity is present iff it is examined and its raw value is truthy, and there are never more present than examined |
| StageProps.InvalidMessages | cc_plugin_ugrid/checker.py:114-116 | one invalid-array message per rejected connectivity |
| StageProps.InvalidMessagesKinds | cc_plugin_ugrid/checker.py:114-116 | the k-th invalid-array message names the k-th rejected connectivity kind |
| StageProps.SweepTally | cc_plugin_ugrid/checker.py:101-119 | a completed sweep adds one sub-check per present connectivity and one point per accepted array, and appends one message per rejected array, in order; every present array is either accepted or rejected |
| StageProps.ConnectivityTally | cc_plugin_ugrid/checker.py:99-121 | past the early returns, `out_of` is the number of present connectivity attributes and `score` the number accepted, with exactly `out_of - score` messages |
| StageProps.SweepVolumeRaises | cc_plugin_ugrid/checker.py:546-553 | a sweep that reaches a present volume connectivity always raises |
| StageProps.SweepVolumeUnsupported | cc_plugin_ugrid/checker.py:101-119 | a sweep reaching a present volume array that passes the lookups ends with `NotImplementedError`, unless the sweep over the connectivities before it raised first, in which case it ends with that exception |
| StageProps.VolumeConnectivityRaises | cc_plugin_ugrid/checker.py:546-553 | past the early returns, a present `volume_node_connectivity` always ends stage 2 with an exception; when the volume array passes the lookups, that exception is `NotImplementedError` unless the edge or face step raised first |
| StageProps.Enrich | cc_plugin_ugrid/checker.py:104-110 | the context a completed stage 2 leaves never changes the raw attributes or node coordinates |
| StageProps.StepWrites | cc_plugin_ugrid/checker.py:101-119 | one step writes only its own kind's slots: the count becomes the dataset dimension iff the array is accepted (checker.py:557, 560), and the dimension variable iff the array is non-standard and the named dimension exists (checker.py:489); volume writes nothing |
| StageProps.ConnectivityEnriches | cc_plugin_ugrid/checker.py:101-119 | the context a completed stage 2 leaves is the enrichment of the one it found |
| StageProps.EnrichIdempotent | cc_plugin_ugrid/checker.py:555-560 | stage 2's writes are constants: enriching twice equals enriching once |
| StageProps.SweepRawOnly | cc_plugin_ugrid/checker.py:101-119 | a sweep's outcome depends on the context only through the raw attribute values |
| StageProps.ConnectivityRerun | cc_plugin_ugrid/checker.py:313-314 | running stage 2 again on the context it left gives the same result and the same context |
| StageProps.MissingNamesMembers | cc_plugin_ugrid/checker.py:155-158 | a name is recorded iff it is listed and is not a dataset variable |
| StageProps.AllFound | cc_plugin_ugrid/checker.py:155-162 | every listed name is found iff each one is a dataset variable |
| StageProps.NodeCoordsCounting | cc_plugin_ugrid/checker.py:152-162 | when the split name count equals the topology dimension: `out_of` is that count, `score` the number found, the context lists exactly the missing names in order, with one message each |
| StageProps.NodeCoordsFailure | cc_plugin_ugrid/checker.py:146-151 | a missing topology dimension, a missing `node_coordinates` attribute or a count mismatch give `score=0, out_of=1` with one message, and `node_coordinates` left empty |
| StageProps.NodeCoordsRerun | cc_plugin_ugrid/checker.py:313-314 | re-running stage 3 on the context it left gives the same result and context |
| StageProps.NodeCoordsLonLat | cc_plugin_ugrid/checker.py:152-162 | `"lon lat"` with topology dimension 2 and both variables defined scores 2 of 2 and records nothing |
| StageProps.CoordsScoreExceedsOutOf | cc_plugin_ugrid/checker.py:380-389 | with `edge_coordinates = "x y"` and both variables as long as `nedges`, the helper returns score 2 with `out_of` 1 |
| StageProps.EdgeFaceInapplicable | cc_plugin_ugrid/checker.py:197-205 | without a derived `nedges` and `nfaces`, or without the optional attribute, stage 4 counts and scores nothing |
| StageProps.EdgeFaceGrading | cc_plugin_ugrid/checker.py:207-216 | when applicable, one sub-check, scored iff the shape is exactly `(nedges.size, 2)` |
| StageProps.FaceAdjacencyInapplicable | cc_plugin_ugrid/checker.py:414-423 | without a derived `nfaces`, or without the optional attribute, stages 5/6 count nothing and are not valid |
| StageProps.FaceAdjacencyGrading | cc_plugin_ugrid/checker.py:425-433 | when applicable, one sub-check, valid iff the shape is `(nfaces.size, maxnumnodesperface.size)`; without `maxnumnodesperface`, it raises iff the first extent matches |
| Orchestrator.RunStage | cc_plugin_ugrid/checker.py:311-314 | every completed stage carries its own description, never scores more than it counts, and keeps the raw attributes |
| Orchestrator.StageRerun | cc_plugin_ugrid/checker.py:313-314 | calling a stage again on the context its first call left repeats the first call exactly |
| Orchestrator.StageOrder | cc_plugin_ugrid/checker.py:321-325 | the six checks in the order that sorting their names gives, `_check1` to `_check6` |
| Orchestrator.RunStageStable | cc_plugin_ugrid/checker.py:313-314 | for every mesh, context and stage, a second call on the context the first left repeats the first |
| Orchestrator.Checks | cc_plugin_ugrid/checker.py:321-325 | the checks found by name: every result carries its own stage's description, and calling any of them again on the context it left repeats it |
| Orchestrator.StageSweep | cc_plugin_ugrid/checker.py:312-314 | a completed mesh adds one result per stage |
| Orchestrator.StageSweepShift | cc_plugin_ugrid/checker.py:311-314 | the results collected before a mesh pass through its stages untouched |
| Orchestrator.StageSweepOrder | cc_plugin_ugrid/checker.py:312-314 | a completed sweep adds one result per stage, in stage order |
| Orchestrator.RunMeshOrder | cc_plugin_ugrid/checker.py:312-314 | one mesh yields six results, in stage order 1 to 6 |
| Orchestrator.MeshSweep | cc_plugin_ugrid/checker.py:311-314 | the registry keeps its set of meshes |
| Orchestrator.CheckRun | cc_plugin_ugrid/checker.py:280-319 | without meshes, exactly one result with `score=0, out_of=1`; with meshes, a completed run ends with the summary result scored 1 of 1; the registry keeps its meshes |
| Orchestrator.MeshesIndependent | cc_plugin_ugrid/checker.py:311-314 | threading the registry through the meshes in turn gives the results of running each mesh on its own registry entry |
| Orchestrator.BlocksShape | cc_plugin_ugrid/checker.py:311-314 | all meshes together give six results per mesh, in stage order |
| Orchestrator.CheckRunShape | cc_plugin_ugrid/checker.py:303-319 | with meshes present: six results per mesh, in stage order 1 to 6, each mesh's block equal to that mesh run alone, then the summary |
| Orchestrator.StableSweep | cc_plugin_ugrid/checker.py:312-314 | for any runner whose second call repeats its first, calling each stage twice and keeping the second result equals calling it once |
| Orchestrator.SixCallsSweep | cc_plugin_ugrid/checker.py:312-314 | the single-call sweep over the stage order is the six calls in sequence, stopping at the first exception |
| Orchestrator.RunMeshSteps | cc_plugin_ugrid/checker.py:311-314 | one mesh's run is its closed form: stages 1 and 2 read the initial context, stage 3 reads what stage 2 left, stages 4 to 6 read what stage 3 left |
| Orchestrator.EdgeFaceNeedsStage2 | cc_plugin_ugrid/checker.py:197-198 | on a mesh that starts without counts, stage 4 can be applicable only if stage 2 accepted both the edge and the face connectivity, the source of `nedges` and `nfaces` |
| Orchestrator.ConnectivityAfterRun | cc_plugin_ugrid/checker.py:313-314 | stage 2 run again after stage 3's write gives the same outcome and changes nothing |
| Orchestrator.RunMeshRerun | cc_plugin_ugrid/checker.py:311-314 | running a mesh's six stages again on the context a completed run left gives the same results and context: no hidden state survives |
| Checker.UgridChecker.constructor | cc_plugin_ugrid/checker.py:25-26 | `__init__` itself sets nothing; the checker holds the dataset and the registry its base class prepares, given here as arguments |
| Checker.UgridChecker.ValidateNcShape | cc_plugin_ugrid/checker.py:499-562 | returns the resolver's answer and writes the count dimension into the mesh's entry exactly as `RecordCount` says; other meshes are untouched |
| Checker.UgridChecker.CheckEdgeFaceDim | cc_plugin_ugrid/checker.py:469-497 | the found flag holds iff the lookup succeeds; the message is the lookup's error; only the mesh's dimension slot changes |
| Checker.UgridChecker.CheckNonstdOrderDims | cc_plugin_ugrid/checker.py:435-467 | edge or face: the result and context of `NonStdOrderDims`; volume raises a missing-key error and changes nothing |
| Checker.UgridChecker.CheckEdgeFaceCoords | cc_plugin_ugrid/checker.py:327-389 | the loop over coordinate names computes `EdgeFaceCoords` and changes nothing |
| Checker.UgridChecker.ConnectivityStep | cc_plugin_ugrid/checker.py:101-119 | one loop turn computes `ConnStep`'s outcome and writes its context into this mesh's entry only |
| Checker.UgridChecker.FindMandatoryMissing | cc_plugin_ugrid/checker.py:94-98 | the search finds a falsy mandatory connectivity iff one exists |
| Checker.UgridChecker.ConnectivitySweep | cc_plugin_ugrid/checker.py:101-119 | the loop over edge, face and volume computes `ConnSweep` and touches only this mesh's entry |
| Checker.UgridChecker.CheckConnectivityAttrs | cc_plugin_ugrid/checker.py:51-121 | stage 2 computes `ConnectivityAttrs` in place |
| Checker.UgridChecker.NodeCoordsSweep | cc_plugin_ugrid/checker.py:155-162 | the loop scores the found names and collects the missing ones, in order, with their messages |
| Checker.UgridChecker.CheckNodeCoordsExist | cc_plugin_ugrid/checker.py:123-175 | stage 3 computes `NodeCoordsExist` in place |
| Checker.UgridChecker.RunCheck | cc_plugin_ugrid/checker.py:312-313 | one call of any stage computes `RunStage` in place |
| Checker.UgridChecker.RunCheckTwice | cc_plugin_ugrid/checker.py:312-314 | calls the stage twice and keeps the second result, stopping at an exception from the first call |
| Checker.UgridChecker.RunMeshChecks | cc_plugin_ugrid/checker.py:311-314 | the inner loop over the six stages computes `StageSweep` in place |
| Checker.UgridChecker.CheckRun | cc_plugin_ugrid/checker.py:280-319 | the nested loops compute `Orchestrator.CheckRun`, both its result list and the registry they leave |

## Left out

- Reading netCDF files, and `mesh.getncattr`, are not modelled. The dataset is an immutable value of variables (dimension names and shape) and dimensions (name and size). A mesh is an id plus its text attributes.
- Mesh discovery and the initial registry belong to the plugin's base class, which is not part of this model. The constructor takes the registry, with every slot present and optional.
- `compliance_checker.BaseCheck.make_result` is not modelled. A result is a plain datatype, and the level is an enumeration.
- Message text (f-strings, Python type names) is not modelled. Messages are constructors carrying the values they mention.
- Discovering checks by `sorted(dir(self))` is not modelled. It is replaced by the explicit stage order `Orchestrator.StageOrder`, and the sweeps take a stage runner.
- Attribute values are integers, reals or text. Python `bool` values and numpy scalar types are not modelled.
- The unused class constants `METHODS_REGEX`, `PADDING_TYPES` and `_cc_display_headers` are not modelled.
- Checker.UgridChecker.CheckNodeCoordsExist: the source resets `node_coordinates` and appends missing names one at a time. The model writes the finished list once, at the end. Nothing reads the list while the check runs, and nothing in between can raise, so the final state is the same; the intermediate states are not modelled.
- Exceptions escaping a check end the whole run with the fault. What the compliance-checker framework does with such an exception is not modelled.
