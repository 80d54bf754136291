# Verified models of the co-op mod's tools

This project models the hard cores of the Python tools that build, check and serve the
co-op mod, and proves properties of them in Dafny. Each model follows the branches, edge cases and
constants of the file it cites. `dafny verify dfyconfig.toml` checks everything. Nothing was executed.

- **Texture atlas** (`ShelfPacking`, `Images`, `AtlasPack`, `AtlasSampling`): the shelf packer with
  its two-times-area bound, the in-place painting of tiles with their gutters, and the proof that a
  one-pixel gutter is enough for bilinear sampling at the UVs as they are stored.
- **Skeletal mesh cook** (`SkelMesh`, `SkeletonLaws`, `MeshSplice`, `MeshCook`, `MeshCookLaws`, `ShortSkeleton`,
  `MeshReader`, `MeshIndex`, `Winding`, `WindingLaws`, `BoneTargets`): a payload cut into labelled parts, new
  buffers spliced between the kept ones, the independent reader, de-indexing, winding and bone targets.
- **Package and texture cook** (`Bytes`, `FoundBytes`, `UePkg`, `UePkgProofs`, `UePkgTiling`, `UePkgEdits`,
  `UePkgExamples`, `UePkgLaws`, `UeTex`, `UeTexLaws`, `Crc`, `CrcLaws`): a tokenising parser with its re-emitter,
  and a relocator that grows the name map and shifts every absolute offset.
- **Pose transfer** (`Vectors`, `Rigid`, `Repose`, `ReposeLaws`, `ReposeNormals`, `SimilarityFit`,
  `SeveralRoots`): pose deltas learned along a skeleton and replayed.
- **Lobby master** (`MasterState`, `MasterRuns`, `MasterLaws`, `MasterServer`): a state machine over two inverse
  tables, its invariant and its behaviour over whole runs, and the handlers as methods of a class.
- **SDK diff** (`Levenshtein`, `SdkDiff`, `SdkLaws`), **game lock** (`GameLock`, `LockRaces`), **signature
  search** (`AobDerive`) and **case folding** (`CaseFold`).

The `...Laws` modules say what the operations mean to a reader of their inputs and outputs: in bytes at
offsets, entries of a dump, requests and replies of a run, or motions of a skeleton.

Code that works by changing things in place is modelled by classes and methods with loops
(`Canvas`, `Cur`, `Server`, `LockFile`), each proved against functions about which the lemmas speak.

Where the code and its own words disagree, the model follows the code:

- `tools/sdk_diff.py:132` gives an example that its own pattern does not match
  (`SdkDiff.DocumentedExampleIsNotStripped`).
- `tools/game_lock.py:169` calls the exclusive create free of a race; between the create and the write
  another process finds an empty file and takes it (`LockRaces.CreateWriteRace`). Breaking a stale lock
  and releasing a dead holder's have the same gap (`LockRaces.StaleBreakRace`, `LockRaces.ReleaseRace`),
  and so has the time between reading a record and probing its process (`LockRaces.LateProbeRace`);
  two processes inside such gaps at once can both end up holding the lock
  (`LockRaces.OverlapLosesExclusion`).
- `tools/client_model/ue_pkg.py:100-101` re-emits a summary byte for byte exactly if no operation moves
  the cursor back, where an offset before the start counts from the end of the file
  (`UePkgTiling.TokensTile`, `UePkgExamples.BackwardsDoesNotTile`, `UePkgExamples.WrapsTiles`). Editing a
  number and serialising again (`tools/client_model/ue_pkg.py:4-9`) goes wrong where a count shares that
  number's bytes (`UePkgEdits.ForwardEditParsesIff`, `UePkgExamples.SharedCountSteers`).
- `tools/debug/ida_aob_derive.py:119-131` adds eight bytes for margin, which can lose the uniqueness
  they are to protect; `AobDerive.MarginSafeIff` says exactly when.
- `tools/sdk_diff.py:194-199` drops old K2Node names as already reported; one whose prefix is gone was
  not, and the report can be empty (`SdkDiff.LostWithoutTrace`).
- `tools/client_model/ue_cook.py:60` marks the bounds as replaced; line 342 keeps them.
- `tools/client_model/atlas.py:53-54` takes tile names from file names, so `a.png` and `a.PNG` share
  one; `AtlasPack.Pack` states exactly what that costs.
- `tools/coop_master_server.py:509` compares with a cache time of zero, so a server that is asked
  within 5 s of the clock's origin answers with no bytes (`MasterRuns.EarlyListingIsEmpty`), and
  `h_host` evicts before it can still answer 400 (`MasterServer.Server.HandleHost`).

Hypotheses that the code does not check and the theorems name: the kept bytes alone must reject every
candidate before the skeleton (`MeshCook.EarlyRejected`; they do if they reach 4803 behind its start, as
with 75 bones or more; `ShortSkeleton` has a template of two bones where they do not, and
`MeshCook.SpliceRoundTripIff` says of each cooked payload whether it parses back); a profile reproduces its
model when bone names are distinct, bones have no or at least three vertices in general position, the bones
with vertices hang off one root or off roots learned at one place, the height is not zero and one scale is
common to all bones (`Repose.Posable`, `Repose.ShiftedAlike`, the latter exact by
`SeveralRoots.LearnThenApplyIff`); the fit, the nearest rotation and the median are functions that are exact
on exact input (`Repose.FitsExactly`, which `SimilarityFit.ExactFitExists` shows can be met,
`Repose.KeepsRotations`, `Repose.MedianOfEqual`); a vector's length is exact (`ReposeNormals.IsLength`);
sampling is clamped bilinear filtering with texel centres
at half-integers; freshly drawn lobby ids are new; sessions that are live at the same time have distinct
names (`tools/mp.py:5181` falls back to the process id).

## Model

| member | source | states |
|---|---|---|
| ShelfPacking.ByHeightIsStableSort | tools/client_model/atlas.py:34 | sorting by falling height permutes the cells, never rises, and keeps cells of equal height in their given order |
| ShelfPacking.ShelfPack | tools/client_model/atlas.py:32-45 | fails exactly when some cell is wider than the canvas; otherwise the positions and used height of the shelf walk |
| ShelfPacking.CellsInside | tools/client_model/atlas.py:36-45 | every gutter cell lies inside the canvas width and the used height |
| ShelfPacking.CellsDisjoint | tools/client_model/atlas.py:36-45 | no two gutter cells overlap |
| ShelfPacking.PositionsAreCorners | tools/client_model/atlas.py:42 | the position map holds exactly the packed names, each at the gutter-inset corner of its last cell |
| ShelfPacking.UsedHeightBound | tools/client_model/atlas.py:34-45 | used height times width is at most twice the total cell area plus one row of the tallest cell |
| ShelfPacking.RowByRow | tools/client_model/atlas.py:36-44 | the next cell stands right of the last one if it still fits on the canvas, and else at the left edge, lower by the tallest cell of the shelf it leaves |
| AtlasPack.ChooseCanvas | tools/client_model/atlas.py:57-65 | picks the smallest listed canvas on which all tiles fit and the least listed height that is enough; none exactly when no canvas fits |
| AtlasPack.SmallTilesFit | tools/client_model/atlas.py:58-65 | tiles within the area bound at 1024 always fit, so the packer cannot give up |
| Images.Canvas.Paste | tools/client_model/atlas.py:72-79 | an in-place paste changes exactly the pixels of the pasted box that lie on the canvas |
| AtlasPack.PaintTile | tools/client_model/atlas.py:70-79 | after the three pastes and two row copies the cell shows the tile with its edge pixels repeated once all around, and nothing outside the cell changed |
| AtlasPack.SelfCheck | tools/client_model/atlas.py:82-89 | succeeds exactly when all recorded cells are on the canvas and pairwise apart |
| AtlasPack.Pack | tools/client_model/atlas.py:48-92 | gives up exactly when there are no tiles or no canvas fits; the finished atlas shows every tile under its name exactly when equal names mean equal pictures, and then the self-check cannot fail |
| AtlasPack.OneNameOnePicture | tools/client_model/atlas.py:53-54 | two tiles faithfully shown under one name are the same picture |
| AtlasSampling.RemappedUvSamplesItsTile | tools/client_model/ue_cook.py:300-303 | with any UV error below 1/2048 the four texels fetched belong to the tile's own gutter cell and the sample is a clamp-mode sample of the original |
| AtlasSampling.ExactRemapSamplesItsTile | tools/client_model/ue_cook.py:300-303 | bilinear sampling at a remapped corner equals clamp-mode bilinear sampling of the original texture |
| AtlasSampling.CentreShowsTexel | tools/client_model/ue_cook.py:300-303 | a sample at a texel's centre shows that texel alone |
| AtlasSampling.StoredUvError | tools/client_model/ue_cook.py:321 | single then half precision rounding of a coordinate in [0,1] is off by less than 1/2048 |
| AtlasSampling.StoredUvSamplesItsTile | tools/client_model/atlas.py:10-13 | the one-pixel gutter is enough for the UV as stored: the fetch stays in the cell and is a fetch of the original less than half a texel away |
| Winding.MatchWinding | tools/client_model/ue_cook.py:245-259 | measures both volumes and reverses every face exactly when the signs differ |
| Winding.ReversalNegates | tools/client_model/ue_cook.py:255 | reversing every face negates the signed volume |
| Winding.MirrorTurnsInsideOut | tools/client_model/ue_cook.py:233 | the mirror into cooked space alone negates the signed volume |
| Winding.WindingMatchesIff | tools/client_model/ue_cook.py:254-259 | after the step the volume is positive exactly when the template's is, unless the mesh's own volume is zero and the template's positive; with both nonzero the signs agree |
| Winding.ReversalUndone | tools/client_model/ue_cook.py:255 | reversing twice restores the faces |
| WindingLaws.TetraVolume | tools/client_model/ue_cook.py:245-248 | an outward tetrahedron measures the determinant of its three edges from one corner: six times its volume |
| WindingLaws.CyclicKeeps | tools/client_model/ue_cook.py:245-248 | starting a face at another corner keeps its contribution |
| WindingLaws.ClosedVolumeIsFixed | tools/client_model/ue_cook.py:243-248 | a mesh with every directed edge as often as its reverse measures the same wherever it stands |
| WindingLaws.TetraIsWoundRight | tools/client_model/ue_cook.py:254-259 | against a template of positive volume a tetrahedron with its outward faces is left alone, and one inside out is turned |
| BoneTargets.ResolveTargets | tools/client_model/ue_cook.py:161-183 | every bone gets its own target, or its nearest mapped ancestor's, or the fallback when no ancestor is mapped |
| BoneTargets.ResolutionIsUnique | tools/client_model/ue_cook.py:161-183 | that rule leaves exactly one answer per bone |
| BoneTargets.AncestorByPath | tools/client_model/ue_cook.py:172-181 | a bone that follows an ancestor has a path of parents to it on which no other bone is mapped |
| BoneTargets.MissByPath | tools/client_model/ue_cook.py:176-182 | a bone sent to the fallback has no mapped bone on its whole way up |
| MeshIndex.Deindex | tools/client_model/ue_cook.py:293-304 | one vertex per distinct key, and every face corner's index leads to its own key |
| MeshIndex.ExpansionIsFaithful | tools/client_model/ue_cook.py:296-304 | expanding the indices reproduces every corner's position, normal, bone and remapped UV in order; two corners share an index exactly when they share a key |
| MeshIndex.IndicesShowFaces | tools/client_model/ue_cook.py:293-304 | each corner of each face, in order, shows its own position, normal and bone, and its texture coordinate inside its material's tile |
| MeshIndex.CornersSampleTheirTiles | tools/client_model/ue_cook.py:294-304 | sampling the atlas at a corner's vertex shows what its own texture shows there |
| MeshIndex.StoredCornersSampleTheirTiles | tools/client_model/ue_cook.py:294-321 | through the stored 16-bit index and the texture coordinate as stored, a corner samples its own tile less than half a texel from its own coordinate, and nothing outside its gutter cell |
| MeshIndex.StoredIndicesRightIff | tools/client_model/ue_cook.py:311 | the 16-bit index buffer leads every corner to its own key exactly when there are at most 65536 vertices |
| MeshIndex.StoredBonesRightIff | tools/client_model/ue_cook.py:325 | the 8-bit stored bones are right exactly when all bones are below 256 |
| SkelMesh.PropertyBlockEnd | tools/client_model/ue_skelmesh.py:68-90 | the walk over the tagged properties finds the terminator and the last colour flag within 500 properties |
| SkelMesh.PropertyBlockReads | tools/client_model/ue_skelmesh.py:74-89 | the walk inverts a writer of tagged properties: it ends past the terminator with the last colour flag written |
| SkelMesh.PropEndIsLocal | tools/client_model/ue_skelmesh.py:68-90 | the property block is found from its own bytes alone |
| SkelMesh.LocateRefskel | tools/client_model/ue_skelmesh.py:93-112 | the search returns the first candidate not rejected, and fails when there is none or a candidate reads past the end |
| SkelMesh.SearchIsStable | tools/client_model/ue_skelmesh.py:93-112 | bytes that agree up to 4803 past the skeleton's start have their skeleton found at the same offset |
| SkelMesh.SearchNeedsReach | tools/client_model/ue_skelmesh.py:93-112 | agreement over a short skeleton alone is not enough: two files that agree on 4803 bytes and have their skeletons found at 24 and at 0 |
| SkeletonLaws.FirstSkeleton | tools/client_model/ue_skelmesh.py:93-112 | what is found is the first offset, of at most 40000 and more than 16 bytes before the end, with 2 to 400 bones, a root first, and every name and parent in range, if no earlier one is such a skeleton or runs into the end of the file |
| SkeletonLaws.WrittenIsSkeleton | tools/client_model/ue_skelmesh.py:94-111 | a skeleton written with such bones is one to the search, whatever surrounds it |
| SkeletonLaws.WrittenIsFound | tools/client_model/ue_skelmesh.py:93-112 | it is found where it stands if and only if no earlier offset stops the search |
| SkelMesh.ExtentIsOwn | tools/client_model/ue_cook.py:50-57 | a counted part's extent is decided by the part's own bytes |
| MeshSplice.ParseSegments | tools/client_model/ue_cook.py:43-89 | the labelled ranges run on from each other, cover the payload, and hold the parts of the table |
| MeshSplice.SegmentsTile | tools/client_model/ue_cook.py:99-100 | joining the segments gives back the payload byte for byte |
| MeshSplice.CutFills | tools/client_model/ue_cook.py:63-88 | every segment cut off is exactly one well-formed part of its slot |
| MeshSplice.CutRestores | tools/client_model/ue_cook.py:63-88 | well-formed parts put end to end are cut exactly where they were joined |
| MeshCook.CookPayload | tools/client_model/ue_cook.py:330-344 | parses the template, encodes the mesh and joins kept and replaced parts; fails exactly when the template does not parse or a count does not fit |
| MeshCook.SpliceRoundTrip | tools/client_model/ue_cook.py:341-344 | parsing the cooked payload gives the same labels, the kept segments byte for byte and the encoded ones in the replaced places, whatever mesh is spliced in, if the kept bytes alone reject every candidate before the skeleton |
| MeshCook.SpliceRoundTripIff | tools/client_model/ue_cook.py:341-344 | the cooked payload parses back so if and only if the search rejects every candidate before the skeleton in it too |
| MeshCook.LongRejectsEarly | tools/client_model/ue_skelmesh.py:96-111 | kept bytes that reach 4803 behind the skeleton's start reject every candidate before it alone |
| ShortSkeleton.ShortSkeletonBreaksSplice | tools/client_model/ue_cook.py:341-344 | a template of two bones that parses and whose cooked payload, whatever mesh is spliced in, does not parse back: its skeleton is found among the materials |
| MeshCook.SplicedParts | tools/client_model/ue_cook.py:338-344 | which parts are kept and which replaced; the stored buffer size is the length of what is streamed |
| MeshCook.LongFromSeventyFive | tools/client_model/ue_skelmesh.py:96-111 | the length that is enough for the round trip is exactly 75 bones or more when the skeleton's three counts are equal |
| MeshCook.BoneCountInRange | tools/client_model/ue_skelmesh.py:98-99 | the skeleton a parse settles on has between 2 and 400 bones |
| MeshCook.SectionsFill | tools/client_model/ue_cook.py:330-336 | the encoded single section is a well-formed sections part |
| MeshCook.SkinWeightFills | tools/client_model/ue_cook.py:323-327 | the encoded weights are a well-formed skin weight part |
| MeshCook.VertexBufferFills | tools/client_model/ue_cook.py:313-322 | the encoded tangents and UVs are a well-formed vertex buffer part |
| MeshCook.IndicesReadBackIff | tools/client_model/ue_cook.py:311 | the stored indices read back exactly if and only if none needs more than sixteen bits |
| MeshCook.StoredPosition | tools/client_model/ue_cook.py:312 | each vertex's position bytes are found at its stride |
| MeshCook.StoredFrameAndUv | tools/client_model/ue_cook.py:313-322 | each vertex's tangent frame and UV bytes are found at their own strides |
| MeshCook.BoneListIsIdentity | tools/client_model/ue_cook.py:337 | the written bone list names every bone once, in order |
| MeshCook.SectionCounts | tools/client_model/ue_cook.py:332-336 | one section, a third as many triangles as indices, every bone in its bone map and every vertex |
| MeshCookLaws.SectionFields | tools/client_model/ue_cook.py:332-336 | every number of the one section at its offset |
| MeshCookLaws.IndexFields | tools/client_model/ue_cook.py:311 | index size and count |
| MeshCookLaws.PositionFields | tools/client_model/ue_cook.py:312 | stride and vertex count, said twice |
| MeshCookLaws.VertexFields | tools/client_model/ue_cook.py:322 | texture coordinate sets, vertex counts, precision flags and element sizes |
| MeshCookLaws.SkinFields | tools/client_model/ue_cook.py:323-327 | influences and counts of the weights, and the empty lookup |
| MeshCookLaws.ColorFields | tools/client_model/ue_cook.py:328 | stride, count and white entries |
| MeshCookLaws.AdjacencyFields | tools/client_model/ue_cook.py:329 | the empty adjacency buffer |
| MeshReader.Cur.ReadRegion | tools/client_model/ue_skelmesh.py:131-168 | the reader's cursor moves over the skeleton and the levels of detail as its calls say, and fails at a level without sections |
| MeshReader.ReadMesh | tools/client_model/ue_skelmesh.py:115-167 | the independent reader's end offset |
| MeshReader.ReaderStopsAtTail | tools/client_model/ue_skelmesh.py:131-172 | where the splicer parses a payload, the independent reader stops at the same tail offset, or fails when the payload has no section |
| MeshReader.ReaderAcceptsSplice | tools/client_model/ue_skelmesh.py:131-172 | on the cooked payload, which has a section, the independent reader reaches the same kept tail, under the round trip's hypothesis |
| Rigid.MulAssoc | tools/client_model/repose.py:312 | matrix products associate |
| Rigid.ProductIsRotation | tools/client_model/repose.py:134-138 | rotations are closed under products |
| Rigid.CompActs | tools/client_model/repose.py:319 | composing transforms acts as one after the other |
| Rigid.CompInv | tools/client_model/repose.py:109 | the inverse undoes a rigid transform on either side |
| Repose.FillFrames | tools/client_model/repose.py:147-159 | measured bones keep their frames; roots and inner bones without vertices get the defaults, built on their parents |
| Repose.Learn | tools/client_model/repose.py:114-197 | the profile of measured bones: per-bone deltas in the rest frame, target height, foot and centre |
| Repose.PoseFrames | tools/client_model/repose.py:303-312 | the replayed frames: each root's pose, then parent times rest times delta |
| Repose.Apply | tools/client_model/repose.py:289-341 | poses by bone name, carried points and placement; no result exactly for no points or no height |
| ReposeLaws.OffsetThenDelta | tools/client_model/repose.py:303-312 | on any rigid skeleton a replayed bone sits on its parent as at rest, moved by its own delta |
| ReposeLaws.UnposedKeepsOffset | tools/client_model/repose.py:289-312 | exactly the bones without a delta keep their rest place on their parents |
| ReposeLaws.UnposedMovesRigidly | tools/client_model/repose.py:289-319 | with no delta anywhere all vertices below a root are carried by one rigid motion, the one that takes the root's rest frame home |
| ReposeLaws.UnnamedIsOnlyPlaced | tools/client_model/repose.py:289-341 | a profile that names none of a model's bones only places the model |
| ReposeLaws.NamedIsLast | tools/client_model/repose.py:299-301 | a bone gets the pose of the last entry of its name |
| ReposeLaws.StandingDoesNotMatter | tools/client_model/repose.py:303-312 | the replay does not depend on where the skeleton stands at rest |
| ReposeLaws.UnmeasuredKeepsOffset | tools/client_model/repose.py:157-159 | an unmeasured inner bone is learned where it rests on its parent |
| ReposeLaws.UnmeasuredRootBorrows | tools/client_model/repose.py:153-156 | an unmeasured root takes the rotation of its first measured child, at the origin |
| ReposeLaws.NoDeltaIff | tools/client_model/repose.py:166-177 | a bone's delta is none exactly when it was learned where it rests on its parent |
| ReposeLaws.LearnedInOnePiece | tools/client_model/repose.py:114-177 | a profile learned from a model moved as one piece, whose root has vertices, has no delta at any bone below it |
| ReposeLaws.MeasuredFromThree | tools/client_model/repose.py:124-132 | a bone is measured from just its own vertices, in order, and exactly when they are at least three |
| ReposeLaws.PlacedToMeasure | tools/client_model/repose.py:330-340 | a placed model has the profile's foot, height and centre, and keeps its proportions |
| ReposeNormals.CarryNormals | tools/client_model/repose.py:320-329 | the loop over the normals |
| ReposeNormals.NormalsFollow | tools/client_model/repose.py:320-329 | whatever the poses, a normal that is not tiny comes out at unit length, and makes with each edge of its bone the product it made at rest |
| ReposeNormals.NormalsFitPlacedModel | tools/client_model/repose.py:313-341 | with rigid poses and a positive height: on the posed and placed model a vertex lies before, in or behind the plane of a normal of its bone exactly as at rest |
| Repose.MeasuresTruth | tools/client_model/repose.py:124-132 | every measured bone is measured right, and every bone with vertices is measured |
| Repose.FrameIsRigid | tools/client_model/repose.py:134-159 | every learned frame is rigid |
| Repose.ReplayIsShifted | tools/client_model/repose.py:304-312 | the deltas telescope: each replayed frame is the learned one moved so that its root stands at the origin |
| Repose.PlacementRecovers | tools/client_model/repose.py:330-340 | scaling to height, grounding and centring by the target's measures undo any scale and shift |
| Repose.LearnThenApply | tools/client_model/repose.py:114-341 | a profile learned from a posed model and applied to the same model at rest gives back exactly the posed points, when the roots in use were learned at one place |
| SeveralRoots.LearnThenApplyIff | tools/client_model/repose.py:114-341 | whatever height the replay has: the replay can be placed and gives back exactly the posed points if and only if the roots in use were learned at one place |
| SimilarityFit.ImageDeterminesSimilarity | tools/client_model/repose.py:92-100 | a similarity is determined by its image of points that are not all on one line |
| SimilarityFit.ExactFitExists | tools/client_model/repose.py:92-100 | there is a fit that is exact on exact input |
| Repose.SelfValidate | tools/client_model/repose.py:199-203 | the self-validation residual is zero when the bones with vertices hang off one root |
| UePkg.Cur.I32 | tools/client_model/ue_pkg.py:28-30 | one structured read: fails exactly when the bytes are not there, else appends its token |
| UePkg.Cur.ArrayRaw | tools/client_model/ue_pkg.py:45-50 | one counted blob: fails exactly when its count is not there, else appends its token |
| UePkg.Cur.Take | tools/client_model/ue_pkg.py:19-50 | a run of cursor operations stops at the first that fails |
| UePkg.ParseSummary | tools/client_model/ue_pkg.py:58-97 | the summary parser as the run of operations that its two data-dependent spots select |
| UePkgLaws.FrontFields | tools/client_model/ue_pkg.py:58-77 | the first eighteen named numbers of every summary that parses with no negative count, at their offsets |
| UePkgLaws.MiddleFields | tools/client_model/ue_pkg.py:78-89 | where generations, engine versions and the additional packages stand, and how many tokens that makes |
| UePkgLaws.EndFields | tools/client_model/ue_pkg.py:90-97 | the registry offset, bulk data start, tile offset and preload numbers at the end, and the summary's length |
| UePkgTiling.TokensTile | tools/client_model/ue_pkg.py:100-109 | for every summary that parses: re-emitting the tokens gives exactly the slice of bytes up to the cursor if and only if no operation moved the cursor back, as slices count |
| UePkgTiling.ForwardTilesIff | tools/client_model/ue_pkg.py:45-50 | of the summaries whose cursor never stands before the start of the bytes, exactly those tile in which no array's size word and elements together have a negative size |
| UePkgExamples.BackwardsDoesNotTile | tools/client_model/ue_pkg.py:45-50 | a file with a count of -1 that parses to its end and whose tokens put together are not its bytes |
| UePkgExamples.WrapsTiles | tools/client_model/ue_pkg.py:45-50 | a file with a count of -22 that moves the cursor to -72, parses to its end, and whose tokens put together are its bytes |
| UePkgTiling.TokensShowCounts | tools/client_model/ue_pkg.py:45-50 | a parse met a negative array count exactly when some array token is too short or starts with one |
| UePkgTiling.ArrayTilesIff | tools/client_model/ue_pkg.py:45-50 | an array keeps the tiling exactly when its count does not pull the cursor back |
| UePkgEdits.EditParsesIff | tools/client_model/ue_pkg.py:58-101 | for every summary that tiles, negative counts or not: the edited bytes parse to the edited tokens at the offsets of before if and only if the edit keeps the legacy version on its side of -4 and leaves lengths of the same effect where they were read; bytes of another length only while the cursor is never before the start |
| UePkgEdits.OwnLengthsEditIff | tools/client_model/ue_pkg.py:58-101 | where every length word lies in its own token no edit changes one, and the edited bytes parse to the edited tokens if and only if the edit keeps the legacy version on its side of -4 |
| UePkgEdits.ForwardEditParsesIff | tools/client_model/ue_pkg.py:58-101 | of a summary whose arrays do not move the cursor back, edited bytes of any length parse to the edited tokens if and only if the legacy version stays on its side of -4 and, where the chunk ids have the count -1, the preload dependency count stays -1 |
| UePkgExamples.SharedCountSteers | tools/client_model/ue_pkg.py:92-97 | a file that tiles and that no longer parses to its tokens once its preload dependency count is edited to anything else |
| UePkgProofs.ParsersAgree | tools/client_model/ue_pkg.py:58-97 | the prefix parser reads these tokens if and only if the cursor ends with them behind their bytes and met no negative array count |
| Bytes.I32RoundTrip | tools/client_model/ue_tex.py:174 | a packed 32-bit value reads back |
| Bytes.I64RoundTrip | tools/client_model/ue_tex.py:164 | a packed 64-bit value reads back |
| Crc.BuildTable | tools/client_model/ue_tex.py:52-57 | the table holds eight bit steps of every byte |
| Crc.TableStep | tools/client_model/ue_tex.py:71 | one table step is eight bit steps |
| Crc.CaseHash16 | tools/client_model/ue_tex.py:67-74 | the table-driven hash is the low half of the bit-at-a-time CRC-32 of the string, four little-endian bytes a character |
| CrcLaws.GeneratorPowers | tools/client_model/ue_tex.py:43-57 | both tables are built from the CRC-32 generator polynomial |
| CrcLaws.StepsMirror | tools/client_model/ue_tex.py:43-57 | the one table is the other mirrored |
| CrcLaws.CaseIsIgnored | tools/client_model/ue_tex.py:60-64 | strings that differ only in the case of ASCII and Latin-1 letters have the same case-insensitive hash |
| UeTex.NameMapRoundTrip | tools/client_model/ue_tex.py:77-79 | a written name map reads back as the same names with their own hashes |
| UeTex.LoadNames | tools/client_model/ue_tex.py:88-93 | the name map loop |
| UeTex.LoadTemplate | tools/client_model/ue_tex.py:83-94 | loading finds the tokens, the names and the name map's end |
| UeTex.RewriteTokens | tools/client_model/ue_tex.py:168-179 | the in-place rewrite of the shifted offsets and of the bulk data start |
| UeTex.ShiftedHeaderParses | tools/client_model/ue_tex.py:168-180 | the summary parser reads the relocated tokens as themselves |
| UeTex.HeaderLength | tools/client_model/ue_tex.py:187-188 | the new header is as long as its own size field says, so the length check never fires |
| UeTex.BytesMoveByDelta | tools/client_model/ue_tex.py:182-187 | every byte behind the name map moves by the same distance, but for the sixteen patched ones |
| UeTex.OffsetsStillAddress | tools/client_model/ue_tex.py:170-174 | every nonzero shifted offset past the old name map addresses the same bytes in the new header |
| UeTex.BytesAtNewPlace | tools/client_model/ue_tex.py:180-187 | bytes between the summary and the name map stay, bytes behind the map move, but for the sixteen patched ones |
| UeTex.OffsetRightIff | tools/client_model/ue_tex.py:170-174 | a shifted offset leads to where its byte now is if and only if it pointed behind the old name map or the map kept its length |
| UeTex.OtherFieldsKept | tools/client_model/ue_tex.py:170-174 | absent offsets stay absent and other fields keep their values |
| UeTex.NewNamesReadBack | tools/client_model/ue_tex.py:181-187 | at the name offset the new header holds the new names with fresh hashes |
| UeTex.ExportEntryReads | tools/client_model/ue_tex.py:183-185 | the relocated export offset finds the entry with the new size and offset |
| UeTex.BuildUexp | tools/client_model/ue_tex.py:135-165 | placeholders and back-patching give the export as meant |
| UeTex.StoredOffsetsAddress | tools/client_model/ue_tex.py:163-165 | SkipOffset reads as the place of the terminating None name, OffsetInFile as that of the pixels, the bulk data start as that of the package tag |
| UeTex.ReparseNeverFails | tools/client_model/ue_tex.py:195-211 | the walk over the written export finds the format name, the dimensions and the terminator, so its three assertions never fire |
| UeTex.HeaderLoads | tools/client_model/ue_tex.py:83-94 | the cooked header loads as a template again, with the relocated tokens and the new names with their own hashes |
| UeTex.Cook | tools/client_model/ue_tex.py:112-191 | cooks exactly the templates that load, pass the self-test and fit; the result is the relocated header and the rebuilt export |
| UeTex.CookedPackage | tools/client_model/ue_tex.py:127-211 | the summary parser reads the cooked header as the relocated tokens with its own size, and it loads as a template with the new names; the moved offsets address the same bytes, the export entry, the skip and payload offsets and the bulk data start what they should, and the check after writing passes |
| UeTexLaws.EveryOffsetIsCarried | tools/client_model/ue_tex.py:168-187 | each of the ten offsets by name: zero stays, any other moves by the growth of the name map, and past the old map leads to the same bytes in the new header |
| UeTexLaws.CountsAreKept | tools/client_model/ue_tex.py:168-179 | the name map's offset, every count and every version keep their values |
| UeTexLaws.CookedNames | tools/client_model/ue_tex.py:122-126 | the new name map reads as the old with just the names 0, 13 and 15 replaced by path, format and asset |
| UeTexLaws.ExportReads | tools/client_model/ue_tex.py:9-19 | every number, string and byte run of the rebuilt export at the offset that its documented layout gives |
| Levenshtein.EditDistance | tools/sdk_diff.py:113-128 | the two-row program computes the recursive Levenshtein distance |
| Levenshtein.ScriptsCostAtLeast | tools/sdk_diff.py:113-128 | no edit script from one string to the other is cheaper |
| Levenshtein.ShortestScript | tools/sdk_diff.py:113-128 | some edit script costs exactly the distance |
| Levenshtein.ZeroIffEqual | tools/sdk_diff.py:115-116 | zero exactly on equal strings |
| Levenshtein.Symmetric | tools/sdk_diff.py:113-128 | symmetric |
| Levenshtein.Triangle | tools/sdk_diff.py:113-128 | triangle inequality |
| Levenshtein.LengthGap | tools/sdk_diff.py:117-120 | at least the difference of the lengths and at most the longer length |
| SdkDiff.MatchIsStripped | tools/sdk_diff.py:131-137 | every way the pattern matches gives the prefix and ordinal returned |
| SdkDiff.StrippedMatches | tools/sdk_diff.py:131-137 | an ordinal is reported only where the pattern matches |
| SdkDiff.KindDecides | tools/sdk_diff.py:131-137 | of the names that end in a kind and digits, exactly those with K2Node inside the kind itself are recognised, with this prefix and ordinal |
| SdkDiff.DocumentedNamesAreNotStripped | tools/sdk_diff.py:132 | no name of the documented shape, prefix, K2Node, kind and number, matches the pattern unless the kind itself holds K2Node |
| SdkDiff.DocumentedExampleIsNotStripped | tools/sdk_diff.py:132 | the documented example is one of them |
| SdkDiff.MatchRenames | tools/sdk_diff.py:206-226 | for any order of the added set the pairing is injective, within arity and threshold, each pair closest among the names then free, and nothing pairable is left |
| SdkLaws.ParamsOfEntry | tools/sdk_diff.py:209-214 | looking up a parameter count by name finds that entry's own |
| SdkLaws.PairableIff | tools/sdk_diff.py:208-218 | two entries may be paired exactly when their parameter counts are equal and their names at most two edits or a quarter of the old length apart |
| SdkDiff.DiffFunctions | tools/sdk_diff.py:173-235 | the report of one class: renumberings, pairs, and the rest as removed and added |
| SdkLaws.RenamesJoinEntries | tools/sdk_diff.py:206-226 | every rename joins an entry that is gone and one that is new, with equal parameter counts and close names, at their distance |
| SdkLaws.LeftoversDoNotPair | tools/sdk_diff.py:206-235 | a removed and an added entry have different parameter counts or are not close |
| SdkLaws.NearerWasTaken | tools/sdk_diff.py:210-224 | a new entry nearer than a rename's was taken by an earlier line |
| SdkLaws.ListsAreEntries | tools/sdk_diff.py:188-235 | removed and added are exactly what is gone or new and not renamed |
| SdkLaws.RenumberingsAreEntries | tools/sdk_diff.py:173-187 | the renumbering lines are exactly the new functions with another ordinal than the last old one of their prefix |
| SdkDiff.GoneExactlyOnce | tools/sdk_diff.py:188-235 | an old-only function is reported gone once, or never when it is the recorded K2Node name of its prefix |
| SdkDiff.NewExactlyOnce | tools/sdk_diff.py:188-235 | a new-only function is reported new once, or never when its K2Node prefix is known |
| SdkDiff.HiddenNewIsRenumbered | tools/sdk_diff.py:179-198 | a new name hidden from the added list is a renumbering line, exactly once |
| SdkDiff.HiddenOldIsReportedIff | tools/sdk_diff.py:195-199 | an old K2Node name dropped by the subtraction is named by a renumbering line exactly when some new function carries its prefix |
| SdkDiff.LostWithoutTrace | tools/sdk_diff.py:193-199 | a class whose one function is a K2Node name and is gone has the empty report and no other |
| MasterServer.Server.RateOk | tools/coop_master_server.py:246-268 | prune, compare and append on one bucket as the step says |
| MasterServer.Server.LobbiesPerIp | tools/coop_master_server.py:312-313 | the number of lobbies of an address |
| MasterServer.Server.DropLobby | tools/coop_master_server.py:307-309 | both tables lose the lobby |
| MasterServer.Server.EvictIfFull | tools/coop_master_server.py:299-304 | the eviction loop ends and removes only lobbies no fresher than any kept |
| MasterServer.Server.HandleHost | tools/coop_master_server.py:319-384 | an announce, rejected ones that already evicted included |
| MasterServer.Server.Authenticate | tools/coop_master_server.py:387-397 | bearer check by session |
| MasterServer.Server.HandleHeartbeat | tools/coop_master_server.py:400-414 | refresh of players, visibility and last-seen time |
| MasterServer.Server.HandleLeave | tools/coop_master_server.py:417-425 | owner removes its lobby |
| MasterServer.Server.HandleVisibility | tools/coop_master_server.py:428-442 | owner shows or hides its lobby |
| MasterServer.Server.HandleJoin | tools/coop_master_server.py:445-476 | what a joiner is told; the tables do not change |
| MasterServer.Server.HandleList | tools/coop_master_server.py:504-517 | cached or rebuilt listing, filtered by version |
| MasterServer.Server.RunSweep | tools/coop_master_server.py:660-675 | expiry and bucket pruning in one pass |
| MasterState.StepKeepsInv | tools/coop_master_server.py:299-476 | every step keeps: public index inverse to the session table, at most 1000 lobbies and 8 per address, player counts in range, direct exactly with a port in 1024..65535 |
| MasterState.EvictionKeepsInv | tools/coop_master_server.py:299-304 | eviction keeps the invariant and makes room |
| MasterRuns.ReachableInv | tools/coop_master_server.py:193-199 | the invariant holds in every state of every run |
| MasterRuns.KeyInjective | tools/coop_master_server.py:250 | bucket keys of different addresses or classes never collide |
| MasterRuns.DecisionIsIdeal | tools/coop_master_server.py:246-268 | every decision equals that of a limiter that keeps the full accepted history, so pruning and sweeping are invisible |
| MasterRuns.NoBurst | tools/coop_master_server.py:246-268 | any closed interval as long as the window holds at most the limit of accepted requests |
| MasterRuns.LobbyAnswers | tools/coop_master_server.py:445-476 | from acceptance until leave, eviction or expiry a lobby answers joins, listed or hidden |
| MasterRuns.AcceptedIsRegistered | tools/coop_master_server.py:360-364 | an accepted announce is in the table under the ids it was told |
| MasterRuns.SweepLeavesFresh | tools/coop_master_server.py:665-668 | after a sweep exactly the lobbies not silent beyond the lifetime are left |
| MasterRuns.BeatRefreshes | tools/coop_master_server.py:400-414 | an accepted heartbeat sets the last-seen time, players within bounds, and visibility when given |
| MasterRuns.RefreshedOutlivesSweeps | tools/coop_master_server.py:660-668 | no sweep within the lifetime of its last refresh takes a lobby; it goes only by its own leave or an eviction |
| MasterRuns.ListingIsRecent | tools/coop_master_server.py:504-517 | from 5 s of clock on each listing is the asked-for listing of the live table at some moment less than 5 s ago |
| MasterRuns.EarlyListingIsEmpty | tools/coop_master_server.py:199-517 | before 5 s of clock an unfiltered listing is no bytes at all and a filtered one is empty |
| MasterRuns.WalksAreApart | tools/coop_master_server.py:509-513 | the live table is walked at most once per 5 s |
| MasterLaws.ListingShows | tools/coop_master_server.py:479-517 | at a moment less than 5 s ago a row with an id is in the reply exactly when a live lobby of that id was listed, of the asked version; every row tells its lobby's fields and its whole seconds of silence |
| MasterLaws.HiddenIsNotListed | tools/coop_master_server.py:428-517 | from 5 s after a lobby is hidden no listing holds it until it is shown, refreshed as listed or announced anew |
| MasterLaws.AnnounceAnswer | tools/coop_master_server.py:319-384 | how each announce is answered, and that an accepted one is in the table with each field as sent, clamped or defaulted |
| MasterLaws.EveryLobbyWasAnnounced | tools/coop_master_server.py:319-384 | in every run each live lobby carries what some accepted announce said |
| MasterLaws.JoinAnswer | tools/coop_master_server.py:445-476 | a joiner is told the address and port of a direct announce, or the identities of any other, or why not |
| MasterLaws.HeartbeatAnswer | tools/coop_master_server.py:387-414 | how each heartbeat is answered and all that it changes |
| MasterLaws.LeaveAnswer | tools/coop_master_server.py:387-425 | how each leave is answered and all that it changes |
| MasterLaws.VisibilityAnswer | tools/coop_master_server.py:428-442 | how each visibility change is answered and all that it changes |
| MasterLaws.BurstsInNumbers | tools/coop_master_server.py:246-268 | in any 60 s an address gets at most 10 announces, 20 joins and 240 changes through |
| MasterLaws.ExpiryInNumbers | tools/coop_master_server.py:660-668 | a sweep leaves exactly the lobbies heard of in the last 300 s |
| MasterLaws.FullServerEvictsOne | tools/coop_master_server.py:299-384 | an accepted announce on a server with 1000 lobbies takes the place of one, silent the longest |
| GameLock.LockFile.Acquire | tools/game_lock.py:152-195 | succeeds exactly when the file is missing, unreadable or stale, and then holds the new record |
| GameLock.LockFile.Release | tools/game_lock.py:198-210 | succeeds exactly for the own session or a dead holder, and then removes the file |
| GameLock.StaleReason | tools/game_lock.py:122-149 | transient locks are stale with their process, persistent ones with no game up and the deadline passed or unreadable |
| GameLock.AtMostOneHolder | tools/mp.py:5174-5210 | in every run of processes that bracket their work with acquire and release, at most one live process holds a transient lock |
| GameLock.HolderKeepsItsRecord | tools/game_lock.py:136-138 | a live transient holder is never displaced, however far past its deadline |
| GameLock.RecordLeavesOnlyBy | tools/game_lock.py:176-210 | in every run that changes a record, the action that first did so is a take-over of an expired persistent lock or from a dead process, or a release by its own session or after its process died |
| GameLock.GameKeepsPersistentLock | tools/game_lock.py:140-142 | while a game is up a persistent lock survives everything but a release |
| GameLock.CrashFreesTheRig | tools/game_lock.py:132-135 | after a holder's crash the next acquire succeeds |
| GameLock.ExpiredPersistentIsTaken | tools/game_lock.py:140-149 | in every run without a release, a persistent lock stays until the first acquire made with the game down and the deadline past, and that acquire puts its own record there |
| GameLock.NewRecordIs | tools/game_lock.py:156-166 | a new record is its taker's, with the deadline the asked-for minutes ahead, cut to the second |
| GameLock.PersistentLastsItsMinutes | tools/game_lock.py:140-195 | in every run without a release a persistent lock stays for the minutes it was taken for, game or no game |
| LockRaces.SeparateWindowsExclude | tools/game_lock.py:168-210 | acquire and release taken apart into file operations and probes, exclusion holds as long as no two processes are bound to change the file or hold on to an outdated record at once |
| LockRaces.OverlapLosesExclusion | tools/game_lock.py:168-210 | from any state with two processes in such windows, neither looking at its own or the other's record, their moves and the deaths of the processes they have read of lead to two live holders |
| LockRaces.CreateWriteRace | tools/game_lock.py:169-181 | a run from a free rig in which a second process takes the just-created, still empty file: two holders |
| LockRaces.StaleBreakRace | tools/game_lock.py:169-195 | a run in which two processes both find a dead holder's record and judge it stale: two holders |
| LockRaces.ReleaseRace | tools/game_lock.py:198-210 | a run in which a release that saw a dead holder's record unlinks the lock taken in the meantime, and a third process takes it again: two holders |
| LockRaces.LateProbeRace | tools/game_lock.py:176-195 | a run from a live holder in which its record is read, it releases and exits, another takes the lock, and the late probe takes it too: two holders |
| AobDerive.Count | tools/debug/ida_aob_derive.py:64-81 | the first-byte jumps count every masked match, the first byte being compared whatever its mask says; no load masks it (`AobDerive.FirstByteUnmasked`) |
| AobDerive.UniqueIsOnePlace | tools/debug/ida_aob_derive.py:64-118 | a window is unique exactly when the segment reads as it, but for the bytes behind load opcodes, at one place |
| AobDerive.MaskRipLoads | tools/debug/ida_aob_derive.py:84-92 | masked are exactly the four bytes behind each load opcode that lies whole in the window |
| AobDerive.MasksAgreeIff | tools/debug/ida_aob_derive.py:84-92 | a longer window masks the same bytes of the shorter one if and only if every byte that a load straddling its end masks is masked already, which is when no load straddles or another ends right there |
| AobDerive.CountsDoNotGrow | tools/debug/ida_aob_derive.py:110-118 | under that condition a longer window has no more matches |
| AobDerive.MarginStaysUnique | tools/debug/ida_aob_derive.py:119-131 | under that condition the margin signature is still unique and still matches the function |
| AobDerive.UnsafeMarginLoses | tools/debug/ida_aob_derive.py:119-131 | where it fails, some segment holds the function, matches the window once and the margin signature twice |
| AobDerive.MarginSafeIff | tools/debug/ida_aob_derive.py:119-131 | for functions of fewer than 256 bytes: the margin keeps uniqueness in every segment if and only if that condition holds or the window repeats inside the function itself |
| AobDerive.MarginCanLoseUniqueness | tools/debug/ida_aob_derive.py:119-131 | such a function and segment: sixteen bytes are unique and the recommended twenty-four match twice |
| AobDerive.EmitSig | tools/debug/ida_aob_derive.py:107-124 | the first unique window of 16, 24, ... bytes, and the one a step longer |
| CaseFold.Runs | tools/text/case_fold.py:40-58 | exactly the pairs of the table with both ends drawable, in maximal runs within each row, sorted and disjoint when the table is |
| CaseFold.EmittedIsFunction | tools/text/case_fold.py:40-58 | the emitted table is a partial function into the drawable set |

## Left out

- MeshSplice.ParseSegments: a part that runs past the end of the payload or backwards (a negative count) fails at once; the tool carries on with such offsets and fails or mislabels later.
- MeshReader.Cur.ReadRegion: a negative or overrunning count fails at once, where the tool moves its cursor on.
- MeshReader.ReadMesh: as for `ReadRegion`; the tool then reports a drift.
- SkelMesh.PropertyBlockEnd: a negative property size fails at once, for the same reason.
- UePkgEdits.EditParsesIff: summaries whose tokens do not tile are excluded, as re-emitting them does not give the file back even unedited.
- UeTex.Cook: templates with a negative array count, whose name map and export table do not follow the summary in that order, or with stored name lengths below one, give no result in the model, whatever the tool would make of them.
- UeTex.LoadTemplate: as for `Cook`.
- UeTex.LoadNames: a stored name length below one gives no result; the tool slices on.
- UeTex.RewriteTokens: the label the tool keeps for raw tokens is not modelled, only their bytes and keys.
- Repose.Apply: a model of zero height gives no result; the tool divides by zero and writes non-finite points. `Repose.Learn` likewise gives no profile for a zero scale.
- Repose.Learn: matrix inverses are those of rigid transforms, which is what exact input leads to; a general inverse is not modelled.
- Repose.FillFrames: bones listed before a parent that is not a root are excluded; the tool fails on them.
- MeshIndex.Deindex: position numbers below zero, which Python would count from the end, do not occur in the model.
- MeshCook.CookPayload: positions, tangent frames and UVs enter as the bytes they are stored as; the conversion of floats to bytes is not modelled except for the UV error.
- MasterServer.Server.HandleList: rows are a set, so the order of rows in a listing and ties between equally stale lobbies are left open.
- MasterServer.Server.HandleHost: request fields arrive decoded and clamped; text cleaning and JSON decoding are not part of this model, and one clock reading serves a whole request.
- GameLock.LockFile.Acquire: one step here, and so is `Release`; `LockRaces` takes both apart. Lock records with fields of foreign types and a failing unlink are not modelled.
- LockRaces.SeparateWindowsExclude: transient locks only; a persistent lock is judged by the game process and the deadline instead of a probe of its holder.
- LockRaces.OverlapLosesExclusion: open file handles are not modelled; its runs never unlink a file that another process has open, which some systems refuse.
- SdkDiff.DiffFunctions: the class and property lists of the diff, and the wording of the report lines, would add only easy members.
- BoneTargets.ResolveTargets: the keyword table that gives a bone its own target is a parameter.
- AobDerive.MarginSafeIff: functions read to 256 bytes or more are excluded; the tool reads at most 96 of them.
- AobDerive.EmitSig: the segment and the function's bytes are parameters; the text of the report is not modelled.
- CaseFold.Runs: the frozen source table is a parameter, and the live census against the host's Unicode data is not modelled.
- The patch of SerialSize and of the bulk data start in the mesh package, the latter by a first-occurrence byte search (`tools/client_model/ue_cook.py:346-354`).
- `noncase_hash16` is carried as written (`UeTex.NonCaseRegister`): its steps mix two bit orders, so beyond its generator and its blindness to case (`CrcLaws`) it refines no simpler specification.
- Picture decoding and channel order, OBJ and PSK reading, HTTP, TLS, TURN credentials and the secrecy of tokens.
- Floating-point rounding, other than the stored UV: coordinates are exact reals.
- Regular-expression digits beyond ASCII.
- Process launching, probes, drills and log reports: orchestration and thresholds only.
