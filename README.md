# Skin-weight serialisation and re-targeting, modelled in Dafny

This project models the skin-weight engine of a Maya rigging toolkit: the code
that turns a skin cluster's weights into portable data and back again. The
host application is replaced by plain inputs: a flat weight array, the list of
influence names, vertex positions and normals, the strings stored as
per-vertex blind data, and the scene's node lists.

The engine exists in three revisions, and each has its own module here:

- `SkinWeightManager` is the oldest revision. It holds the `SkinData` class
  with its export, import and blind-data paths.
- `Skinning` models `skinning.py` and its `SkinHandler` class.
- `SkinCluster` and `SkinClusterManager` are the newest revision.

Shared value-level definitions live in these modules:

- `SkinModel`: the dense and sparse weight rows and the chunking of a flat
  `vertex_count × influence_count` matrix.
- `BakeFormat`: the per-vertex text `name:value` records, each ended by a
  pipe.
- `Geometry`: squared distance and the nearest-point argmin.
- `Text`, `Lists` and `Wrappers`: helpers.

The helper modules are `DgUtils`, `MayaUtils`, `SkinUtils` and
`SkinningUtils`.

The model proves these properties:

- Export followed by import is the identity on the weight matrix when the
  influences keep their order. Rows are matched by influence index or by
  influence name.
- Under any reordering of the influences, two things still hold. A single
  exported row, read back by name, puts each weight in its influence's
  column. A whole bake followed by an unbake does the same for every vertex.
- The bake text parses back to the weights it was written from.
- Sparse rows drop exactly the zero weights.
- In vertex order, a vertex-subset import changes only the listed vertices.
  With a point remap, a row outside the subset takes the current chunk of
  its matched source vertex.
- Snapshot ids are unique, and the enumeration keeps only ids of five or more
  digits.
- The influence set differences (unused and missing influences) are exact.
- The depth-bounded connection walk and the root-path prefix search are
  characterised completely.

Weights are natural numbers read as fixed-point values. Their decimal text
form has a proved round trip.

Some source quirks are kept as written, not corrected:

- In `skinning.py`, a `normals` match computes matches but remaps nothing.
- The newest manager compares stored normals against world positions.
- The newest manager reverses the blind-data strings it reads.
- The newest manager indexes current chunks by the remapped source id.
- `get_missing_influences` returns the current influences minus the long
  names of the given ones.

## Model

| member | source | states |
|---|---|---|
| DgUtils.EffectiveDepth | dg_utils.py:25-26 | a depth of 0 or None means no cut; 1 becomes 2; any other depth is kept |
| DgUtils.SliceTo | dg_utils.py:39 | Python's `[:stop]` slice: a prefix of the list, whole for None, of the stop's length (from the end when negative) |
| DgUtils.FirstMatch | dg_utils.py:45-46 | the first position whose component is non-empty and of the node type, with no such component before it; None when there is none |
| DgUtils.RootIsPrefix | dg_utils.py:39-49 | a root found for a path is a non-empty prefix of the path ending at a component boundary, and its last component is of the node type |
| DgUtils.NoRoot | dg_utils.py:45-49 | a path yields None exactly when no component within the depth is non-empty and of the node type |
| DgUtils.RootWithinDepth | dg_utils.py:39 | a root found with depth d has at most d components |
| DgUtils.EmptyNeverQueried | dg_utils.py:46 | the type query is never asked about an empty component: changing its answer there changes nothing |
| DgUtils.RootNodesExactly | dg_utils.py:52-56 | the result set holds exactly the roots found for the listed paths, never None or the empty string |
| DgUtils.DepthPromotion | dg_utils.py:25-26 | searching with depth 1 equals depth 2, and depth 0 equals no depth |
| MayaUtils.NextOf | maya_utils.py:86 | `listConnections` of the start nodes: exactly the neighbours of some start node |
| MayaUtils.Connections | maya_utils.py:76-93 | the visited set only grows, and only by nodes the graph connects to; termination by the shrinking set of unvisited targets |
| MayaUtils.Progress | maya_utils.py:90-93 | each recursive level visits a new node, so the recursion ends on a finite graph |
| MayaUtils.ConnectionSearch.FindAllConnections | maya_utils.py:76-93 | the shared set after the call is exactly the recursive search's result, updated in place |
| MayaUtils.FindAll | maya_utils.py:52-73 | `find_all_incoming`/`find_all_outgoing` start from an empty set and return what the search leaves in it |
| MayaUtils.ConnectionsReachable | maya_utils.py:86-93 | every node the search adds is one or more steps from the start nodes |
| MayaUtils.ConnectionsClosed | maya_utils.py:86-93 | with no depth limit the result holds the start's connections and is closed under connections of the nodes it added |
| MayaUtils.DepthLimitStops | maya_utils.py:84-85 | beyond a non-zero `max_depth` the search returns at once and adds nothing |
| MayaUtils.FindAllIsReach | maya_utils.py:64-73 | with no depth limit a node is found exactly when it is one or more steps downstream of the start |
| MayaUtils.WithId | maya_utils.py:119-120 | the comprehension keeps exactly the listed nodes whose `typeId` equals the id |
| MayaUtils.NodeWithIdFirst | maya_utils.py:119-121 | the lookup is None exactly when no node has the id, and otherwise names the first such node in listing order |
| MayaUtils.TextIdAsNumber | maya_utils.py:112-118 | a digit string finds what its number finds; any other string (a warning) finds no node |
| MayaUtils.TextOfNumber | maya_utils.py:112-114 | the decimal text of an id finds the same node as the id |
| MayaUtils.GeometryFromBlindDataNode | maya_utils.py:96-103 | None exactly when no transform lies downstream of the node, otherwise a downstream transform |
| MayaUtils.IsBlindDataMatch | maya_utils.py:124-142 | true for the current year's id; otherwise true only when a node has the id and the geometry lies downstream of it, and true whenever that geometry is the only downstream transform |
| SkinUtils.SkinClusterName | utils/skin_utils.py:135 | the new skinCluster's name has no pipe and ends in `_skinCluster` |
| SkinUtils.SkinClusterNameOfPath | utils/skin_utils.py:135 | a long mesh path and its leaf name give the same cluster name: the parents are dropped |
| SkinUtils.FindBetween | utils/skin_utils.py:150-153 | None exactly when a delimiter is missing; an error where `rindex` finds no closing delimiter after the opening one |
| SkinUtils.FindBetweenFound | utils/skin_utils.py:150-153 | with both delimiters present, the text strictly between the last `first` and the last `last` at or after it |
| SkinUtils.FindBetweenFails | utils/skin_utils.py:152 | the call raises exactly when no `last` starts at or after the end of the last `first` |
| SkinUtils.FindBetweenVertString | utils/skin_utils.py:150-153 | for `mesh.vtx[v]` the text between the brackets is the decimal digits of v |
| SkinUtils.VertsOf | utils/skin_utils.py:196 | one parse per vertex string, in selection order |
| SkinUtils.SelectedVerts | utils/skin_utils.py:193-196 | an empty selection (None) raises; otherwise the indexes of the vertex strings, same length and order, failing exactly when one string does not parse |
| SkinUtils.VertStrings | utils/skin_utils.py:193 | the expanded component string of each vertex |
| SkinUtils.SelectedVertsOfStrings | utils/skin_utils.py:196 | reading back the component strings of some vertices gives those vertices in order |
| SkinUtils.SkinSelectionOf | utils/skin_utils.py:209-217 | with a vertex selection: one mesh, the text before `.vtx` in the first string, and the parsed vertices; otherwise the selected meshes and the selection as is |
| SkinUtils.MeshOfVertString | utils/skin_utils.py:211 | the text before `.vtx` in a vertex's component string is its mesh |
| SkinUtils.SkinSelectionOfStrings | utils/skin_utils.py:209-214 | a selection of one mesh's vertices gives back that mesh and those vertices |
| SkinUtils.ClosestPointInKdtree | utils/skin_utils.py:91-104 | fails exactly on an empty tree; otherwise (index, source point at that index, distance) with the index a nearest source point |
| SkinUtils.ClosestPointOfSourcePoint | utils/skin_utils.py:91-104 | a query at a source point is answered at distance zero |
| SkinUtils.NodeFromIdAgainstMayaUtils | utils/skin_utils.py:244-248 | the first node whose integer `typeId` equals the id, as in maya_utils for ints; a string id never matches here |
| SkinUtils.MeshFromBlindDataId | utils/skin_utils.py:251-272 | a transform downstream of the first blind-data node with the id; when no node has the id it returns None, where the source passes None on to `find_all_outgoing` |
| Lists.Partition | skinning_utils.py:12-19 | the append loop splits the joints into those in the scene and those not, each in input order (Keep/Drop) |
| Lists.KeepDropPartition | skinning_utils.py:15-19 | the two lists together are the input, counted with repeats |
| SkinningUtils.CreateSkinClusterFromGeometry | skinning_utils.py:6-26 | gives up exactly when some influence is missing and the scene has no joints; otherwise binds the in-scene influences in order, named `<geometry>_skinCluster`, and the two lists partition the input |
| SkinningUtils.SkinClusterNode.RemoveUnusedInfluences | skinning_utils.py:29-43 | returns the influences not weighted, in order, none of them weighted; the cluster keeps exactly the weighted ones, and removed plus kept is the original |
| SkinningUtils.SkinClusterNode.RemoveInfluences | skinning_utils.py:41-42 | each name is removed once, in turn (`list.remove` semantics) |
| SkinningUtils.UnweightedInfluences | skinning_utils.py:35-40 | the influences not in the weighted list, in original order |
| SkinningUtils.RemoveDroppedLeavesKept | skinning_utils.py:38-42 | removing one by one every unweighted influence leaves exactly the weighted ones in order, even with repeated names |
| SkinningUtils.SkinClusterFromGeometryFirst | skinning_utils.py:46-55 | the first skinCluster in the history, None exactly when the history holds none |
| SkinCluster.BaseSkinCluster.constructor | skin_cluster.py:43-47 | with no mesh the index array stays null; with a mesh it is set and the indexes are built |
| SkinCluster.BaseSkinCluster.SetMesh | skin_cluster.py:199-212 | stores the mesh and rebuilds a fresh index array 0..n-1 for the influences the host reports now |
| SkinCluster.BaseSkinCluster.BuildInfluenceIndexes | skin_cluster.py:222-238 | a fresh array of length `number_of_influences` whose entry i is i |
| SkinCluster.BaseSkinCluster.GetWeightChunks | skin_cluster.py:254-270 | consecutive slices of `number_of_influences` weights (the last may be short); a zero step is an error |
| SkinCluster.BaseSkinCluster.GetWeightData | skin_cluster.py:385-414 | without a mesh the skinCluster query fails with NoMesh; otherwise one entry per chunk, entry k zipping the influence indexes with chunk k, and a zero step is an error |
| SkinCluster.BaseSkinCluster.UnusedInfluences | skin_cluster.py:416-430 | exactly the influences that are not weighted |
| SkinCluster.BaseSkinCluster.RemoveUnusedInfluences | skin_cluster.py:432-439 | removes exactly the unused influences: every influence left is weighted and every weighted one stays |
| SkinCluster.RemovingUnusedKeepsWeighted | skin_cluster.py:430-439 | removing the present-but-unweighted influences leaves exactly the weighted ones |
| SkinCluster.BaseSkinCluster.MissingInfluences | skin_cluster.py:441-451 | exactly the current influences absent from the long names `cmds.ls` gives for the given list (current minus given, the reverse of the docstring) |
| SkinCluster.LongNames | skin_cluster.py:450 | `cmds.ls(names, long=True)`: every name the scene knows contributes its long name, a name it does not know is dropped, and nothing else is listed |
| SkinCluster.BaseSkinCluster.BakeVertexBlindData | skin_cluster.py:294-337 | a length mismatch raises and writes nothing; otherwise the type is registered if new and the strings are written over the listed vertices |
| SkinCluster.BaseSkinCluster.SetWeights | skin_cluster.py:272-292 | the host's weights become the given matrix; nothing else changes |
| SkinModel.WriteStringsOverwrite | skin_cluster.py:331-337 | baking again under the same id over the same vertices replaces the earlier strings |
| SkinModel.FlattenChunks | skin_cluster.py:267-270 | concatenating the chunks gives back the flat weight list |
| SkinModel.ChunkAt | skin_cluster.py:267-270 | chunk k is the slice starting at k times the influence count |
| SkinModel.ChunksCount | skin_cluster.py:267-270 | a list of m * n weights gives m chunks, each of exactly n weights |
| SkinClusterManager.MaxOf | skin_cluster_manager.py:33 | `max(all_blind_data_ids)`: an element of the list no smaller than any other |
| SkinClusterManager.UniqueBlindDataId | skin_cluster_manager.py:22-34 | never an id already in use: the clock value when free, otherwise one more than every existing id |
| SkinClusterManager.ChooseBlindDataId | skin_cluster_manager.py:158-164 | a given non-zero id wins; else a snapshot gets an id not in use; else the default (year) id |
| SkinClusterManager.ExportRecord | skin_cluster_manager.py:83-95 | a vertex record keeps the position and normal and exactly the pairs with non-zero weight |
| SkinClusterManager.ExportOf | skin_cluster_manager.py:48-96 | one record per weight chunk, record k holding chunk k's (index, weight) pairs with non-zero weight in order; influence ids 0..n-1; no influences or a missing point is an error |
| SkinClusterManager.GetSkinningData | skin_cluster_manager.py:48-96 | without a mesh it fails with NoMesh; otherwise the export loop computes exactly `ExportOf` of the skinCluster's host state |
| SkinClusterManager.KeepNonZero | skin_cluster_manager.py:84-88 | the inner append loop keeps exactly the non-zero pairs, in original order |
| SkinModel.NonZeroIdempotent | skin_cluster_manager.py:87 | the sparsity filter applied twice keeps what it kept once |
| SkinModel.DensifySparseRow | skin_cluster_manager.py:84-88 | dense to sparse to dense in the same influence order gives the row back exactly |
| SkinClusterManager.ResolvePair | skin_cluster_manager.py:356-361 | a stored pair lands in the current column of its influence's stored name, failing when the index or the name is unknown |
| SkinClusterManager.ResolveAll | skin_cluster_manager.py:353-361 | every stored pair of a vertex resolved in order, failing exactly when one pair does |
| SkinClusterManager.ChunkOf | skin_cluster_manager.py:335-363 | a row of `number_of_influences` weights; a missing vertex or unresolvable pair is an error |
| SkinClusterManager.ChunkByName | skin_cluster_manager.py:351-363 | the current column of each stored influence name holds the weight stored for it, and every other slot is zero |
| SkinClusterManager.GetWeightChunk | skin_cluster_manager.py:335-363 | the index-assignment loop computes exactly `ChunkOf` |
| SkinClusterManager.RemapStep | skin_cluster_manager.py:387-389 | one turn of the in-place rewrite: the first slot holding the value receives its matched point; a value past the points raises |
| SkinClusterManager.RemapVerts | skin_cluster_manager.py:386-389 | the caller's list is rewritten in place exactly as the loop does, or the loop's IndexError is returned |
| SkinClusterManager.RemapFromMaps | skin_cluster_manager.py:386-389 | when no matched point equals an id still waiting later in the list, every id is mapped through the points |
| SkinClusterManager.RemapCollision | skin_cluster_manager.py:386-389 | ids matched crosswise come out unmapped: [0, 1] with points [1, 0] stays [0, 1] |
| SkinClusterManager.RowAt | skin_cluster_manager.py:393-409 | row i fails when its matched point is out of range; without a subset, or when its (remapped) id is in the subset, it is the weight chunk built for that id; rows have `number_of_influences` weights |
| SkinClusterManager.MatrixRows | skin_cluster_manager.py:392-412 | one row per mesh vertex, failing exactly when one row fails |
| SkinClusterManager.GetPoints | skin_cluster_manager.py:418-475 | any method but "position"/"normal" is a TypeError; otherwise one nearest stored vertex per mesh world-space point, with "normal" searching stored normals by world positions |
| SkinClusterManager.GetPointsOnSameMesh | skin_cluster_manager.py:435-475 | importing by position onto the exporting mesh matches every point at distance zero |
| SkinClusterManager.GetWeightMatrix | skin_cluster_manager.py:365-416 | the matrix is `ImportMatrix` of the host and data; the caller's list is remapped in place only when points and a subset are both given |
| SkinClusterManager.FillMatrix | skin_cluster_manager.py:392-412 | the row loop extends the matrix with exactly the rows `MatrixRows` defines |
| SkinClusterManager.ReadRow | skin_cluster_manager.py:396-410 | one row of the loop: the current chunk of the row's id when chunks exist and the id is outside the subset, otherwise the chunk rebuilt from the stored vertex, exactly as `RowAt` says, failing on a missing point or chunk |
| SkinClusterManager.ExportedRowReads | skin_cluster_manager.py:351-363 | a row exported in the current influence order reads back as the same row |
| SkinClusterManager.VertexOrderRoundTrip | skin_cluster_manager.py:392-412 | export then import with no points and no subset gives back the weight list exactly |
| SkinClusterManager.KeptRowUnchanged | skin_cluster_manager.py:399-401 | with a subset, each row whose (remapped) id is outside the subset is copied unchanged from the current chunk of that id |
| SkinClusterManager.ImportMatrixLength | skin_cluster_manager.py:392-412 | the matrix has `number_of_verts` times `number_of_influences` weights |
| SkinClusterManager.SetSkinningData | skin_cluster_manager.py:98-140 | a failing point match or matrix writes nothing; otherwise the host's weights become the import matrix |
| SkinClusterManager.BakeSlots | skin_cluster_manager.py:171-186 | n slots; each pair's slot holds `name:value` text with the partial name of its influence, later pairs replacing earlier; other slots empty; an index out of range fails |
| SkinClusterManager.BakeVertex | skin_cluster_manager.py:168-189 | the slot-filling loop then the join equal `BakeSlots` concatenated |
| SkinClusterManager.BakeTexts | skin_cluster_manager.py:168-193 | one string per vertex in vertex order; the first vertex that fails fails the bake |
| SkinClusterManager.BakeAll | skin_cluster_manager.py:142-193 | one baked string per mesh vertex |
| SkinClusterManager.BakeWeights | skin_cluster_manager.py:142-196 | without a mesh it fails with NoMesh and writes nothing; a failing export or vertex writes nothing; otherwise string v is written on vertex v under the chosen id, and the first polyBlindData node with that type id, or None, is returned |
| SkinClusterManager.BakeVertices | skin_cluster_manager.py:168-193 | the vertex loop computes exactly `BakeTexts` |
| SkinClusterManager.ShortNames | skin_cluster_manager.py:207 | the last pipe-separated component of each influence path, one per influence |
| SkinClusterManager.ReversedTwice | skin_cluster_manager.py:214-220 | reversing the host's highest-first strings twice restores them |
| SkinClusterManager.ReverseInPlace | skin_cluster_manager.py:220 | `list.reverse()` in place: the array becomes its old contents reversed |
| SkinClusterManager.UnbakeChunk | skin_cluster_manager.py:226-240 | the chunk read from one string has one slot per influence |
| SkinClusterManager.ReadChunk | skin_cluster_manager.py:233-240 | the per-piece loop succeeds exactly when `UnbakeChunk` does, and then builds the same row |
| SkinClusterManager.ReadPiece | skin_cluster_manager.py:233-240 | one piece: its name is looked up first, then its weight parsed; success gives the parsed entry and the influence's index, failure means the piece does not parse or names no current influence |
| SkinClusterManager.UnbakeRows | skin_cluster_manager.py:223-243 | one row per string; with a subset, a vertex outside it keeps its current chunk |
| SkinClusterManager.UnbakeWeights | skin_cluster_manager.py:198-249 | the strings are reversed into vertex order and read back into a matrix handed to the host; a failing row writes nothing |
| SkinClusterManager.UnbakeVertices | skin_cluster_manager.py:222-243 | the vertex loop computes exactly the concatenated `UnbakeRows` |
| SkinClusterManager.StoredAfterBake | skin_cluster_manager.py:210-220 | strings baked on every vertex come back from the host highest vertex first |
| SkinClusterManager.BakeUnbakeRow | skin_cluster_manager.py:171-189 | a dense row baked and read back against the same names is the same row |
| SkinClusterManager.BakeUnbakeRowInto | skin_cluster_manager.py:233-240 | a row baked and read back against any distinct list holding its names puts each weight in its name's column and zero elsewhere |
| SkinClusterManager.BakedVertexReadsBack | skin_cluster_manager.py:171-240 | one exported vertex baked and unbaked under the same partial names is its chunk of the weight list |
| SkinClusterManager.BakeThenUnbake | skin_cluster_manager.py:142-249 | bake every vertex then unbake all from the host's store gives back the weight list exactly |
| SkinClusterManager.BakedVertexReadsInto | skin_cluster_manager.py:171-240 | one exported vertex unbaked against a reordered influence list lands by name |
| SkinClusterManager.BakeThenUnbakeReordered | skin_cluster_manager.py:142-249 | bake then unbake onto influences in any order restores each weight on its same-named influence, zero elsewhere |
| SkinClusterManager.SnapshotIdFilter | skin_cluster_manager.py:287-288 | an id is listed exactly when its decimal text has at least 5 characters (at least 10000, or at most -1000) |
| SkinClusterManager.DefaultIdIsNotListed | skin_cluster_manager.py:46 | the default id, a four-digit year, is never listed as a snapshot |
| SkinClusterManager.IdsOn | skin_cluster_manager.py:313-331 | every snapshot listed for a mesh has a snapshot id and carries `time.ctime` of that id as its time stamp |
| SkinClusterManager.GroupedLists | skin_cluster_manager.py:296-299 | a mesh is a key exactly when a snapshot id was met on it, and then lists every such id in discovery order |
| SkinClusterManager.GetConnectedSnapshots | skin_cluster_manager.py:302-332 | the dictionary built by the scan groups the `{id, timestamp}` entries by mesh |
| SkinClusterManager.GetDisconnectedSnapshots | skin_cluster_manager.py:264-300 | the `{id, timestamp}` entries of every shape's blind-data nodes with snapshot ids, grouped by the shape's parent, in scan order |
| SkinClusterManager.AddShape | skin_cluster_manager.py:279-299 | the inner loop adds one shape's sightings, with their time stamps, to the dictionary |
| SkinClusterManager.GetAllSnapshots | skin_cluster_manager.py:251-262 | the union of both dictionaries' meshes, a mesh in both keeping its disconnected list of `{id, timestamp}` entries |
| BakeFormat.ParsePiece | skin_cluster_manager.py:235-237 | a piece that reads back gives a name without a colon and a numeric weight |
| BakeFormat.ParseAll | skin_cluster_manager.py:233-240 | every piece read in order; the read fails exactly when one piece does |
| BakeFormat.NonEmpty | skinning.py:354 | `filter(None, ...)`: only the non-empty pieces remain |
| BakeFormat.NamesIn | skinning.py:328 | one joint name per pipe-separated piece |
| BakeFormat.SplitEncode | skin_cluster_manager.py:233 | splitting a joined bake string at the pipe gives one piece per entry and the empty tail the trailing pipe leaves |
| BakeFormat.ParsePieceOfPiece | skin_cluster_manager.py:235-237 | a `name:weight` piece of a colon- and pipe-free name reads back as the same name and weight |
| BakeFormat.ParseAllPieces | skin_cluster_manager.py:233-240 | the pieces of a bake string read back as exactly the entries that made them |
| BakeFormat.ParseEncode | skin_cluster_manager.py:233-237 | both readers, dropping the trailing empty piece or filtering out empty pieces, give back the baked entries |
| BakeFormat.NamespacedNameDoesNotRoundTrip | skin_cluster_manager.py:235-237 | a name holding a colon, such as a namespaced joint, does not read back |
| BakeFormat.ResolveByIndex | skin_cluster_manager.py:236 | `influences.index(name)` on every entry: fails exactly when a name is not a current influence, otherwise the first matching column of each |
| BakeFormat.LastAtResolved | skin_cluster_manager.py:234-240 | after resolution, a column holds the last weight read for its influence name |
| SkinModel.FullPaths | skin_cluster.py:158-166 | the full path of each influence, in influence order |
| SkinModel.PartialPaths | skin_cluster_manager.py:176-178 | the partial path of each influence, in influence order |
| SkinModel.WithoutNamed | skin_cluster.py:432-439 | removing the named influences keeps exactly the influences not named |
| SkinModel.WriteStringsAt | skin_cluster.py:331-337 | after writing strings on vertices, a vertex holds the last string written on it, or its old string when none was |
| SkinModel.WriteStringsRange | skin_cluster.py:331-337 | writing string v on vertex v for every v stores each string on its vertex |
| SkinModel.NonZero | skin_cluster_manager.py:84-88 | the kept pairs are exactly the pairs with a non-zero weight |
| SkinModel.Place | skin_cluster_manager.py:361 | each column holds the last weight assigned to it, other columns keep their value |
| SkinModel.LastAtOfSparseRow | skin_cluster_manager.py:84-88 | a column of a sparse row holds its dense weight when non-zero and nothing otherwise |
| SkinModel.Chunks | skin_cluster.py:267-270 | every chunk is non-empty and at most `number_of_influences` long, all but the last exactly that long |
| SkinModel.ChunksOfFlatten | skin_cluster.py:267-270 | chunking a flattened matrix of equal rows gives back its rows |
| SkinModel.FlattenAt | skin_cluster_manager.py:411-412 | weight j of row k of the matrix sits at k * n + j of the flat array |
| SkinModel.FlattenLength | skin_cluster_manager.py:392-412 | a matrix of m rows of n weights flattens to m * n weights |
| SkinModel.ColumnAt | skin_cluster.py:267-270 | column c at vertex v is the flat weight at v * n + c |
| Geometry.SqDistNonNegative | utils/skin_utils.py:91-104 | the squared distance is non-negative and zero from a point to itself |
| Geometry.Closest | utils/skin_utils.py:91-104 | the returned index is a source point no farther from the query than any other |
| Geometry.Correspond | skin_cluster_manager.py:467-475 | no source points is an error; otherwise one nearest source index per target point |
| Geometry.CorrespondSelf | skin_cluster_manager.py:467-475 | matching a point set against itself finds each point at distance zero |
| Text.ShowNat | skin_cluster_manager.py:182-184 | the written weight is a non-empty run of digits |
| Text.ParseNat | skin_cluster_manager.py:237 | reading succeeds exactly on a non-empty run of digits |
| Text.ParseShowNat | skin_cluster_manager.py:237 | a weight written as text reads back as the same weight |
| Text.ShowNatLength | skin_cluster_manager.py:287 | the text of n is longer than k characters exactly when n is at least 10 to the k |
| Text.Split | skin_cluster_manager.py:233 | `str.split` gives at least one piece |
| Text.SplitPiecesFree | skin_cluster_manager.py:233 | no piece of a split holds the separator |
| Text.JoinSplit | skin_cluster_manager.py:233 | joining the pieces of a split with the separator gives the string back |
| Text.SplitJoin | skin_cluster_manager.py:233 | splitting separator-free pieces joined by the separator gives the pieces back |
| Text.LastPiece | skin_cluster_manager.py:207 | `split("pipe")[-1]`: the last component holds no separator |
| Text.LastPieceAfter | skin_cluster_manager.py:207 | the last component of a path is whatever follows its last separator |
| Text.LastIndexFrom | utils/skin_utils.py:150-153 | `rindex`: the last occurrence of the substring at or after the start, or none anywhere there |
| Text.FirstIndexOf | utils/skin_utils.py:150-153 | `find`: the first occurrence of the substring, or none anywhere |
| Text.BeforeFirst | utils/skin_utils.py:211 | `split(sep)[0]`: a prefix that the separator follows when it occurs, the whole string otherwise |
| Lists.IndexOf | skin_cluster_manager.py:236 | `list.index`: present exactly when the item is, at the first position holding it |
| Lists.IndexOfDistinct | skin_cluster_manager.py:236 | in a list without repeats, an item's index is its position |
| Lists.Dedup | skin_weight_manager.py:316-317 | the joint-id pattern built by appending each id not yet in it: no repeats, the same elements |
| Lists.DedupFirstSeen | skin_weight_manager.py:316-317 | the pattern lists the joint ids in the order of their first occurrence |
| Wrappers.Collect | skin_cluster_manager.py:392-412 | a list of results succeeds exactly when every one does, keeping each value in order |
| Skinning.NoneSlots | skinning.py:123 | `number_of_influences * [None]`: that many empty slots |
| Skinning.Fill | skinning.py:134-138 | each slot holds the full path of the last influence whose logical index is that slot, or keeps its old value when none is |
| Skinning.InRangePrefix | skinning.py:134-138 | the loop assigns influences until the first whose logical index is past the slots, which raises |
| Skinning.FillSlots | skinning.py:122-138 | from empty slots with distinct logical indexes, each influence's slot holds its full path and every other slot stays None |
| Skinning.Records | skinning.py:156-165 | one record per weight chunk that has a position and a normal |
| Skinning.Keyed | skinning.py:160-165 | the in-memory table is keyed by the ints 0..n-1, key v holding record v |
| Skinning.JsonTable | skinning.py:184 | after a JSON pass the keys are the decimal texts of 0..n-1, text v holding record v |
| Skinning.JsonTableSize | skinning.py:184 | the table after a JSON pass holds exactly one entry per record: no two vertex numbers share a key |
| Skinning.ShowNatInjective | skinning.py:184 | distinct vertex numbers have distinct decimal keys |
| Skinning.PairChunks | skinning.py:156-157 | chunk k of the flat weights zipped with the influence indexes, one entry per chunk |
| Skinning.StoreRecords | skinning.py:160-165 | the record loop computes exactly `Records`, and fails when a chunk has no position or normal |
| Skinning.StoredRecord | skinning.py:217 | `data['verts'][str(v)]` succeeds exactly when that key is in the table |
| Skinning.StoredPoints | skinning.py:184-191 | the stored positions, or normals, of vertices 0..count-1, failing exactly when a key is missing |
| Skinning.GatherStoredPoints | skinning.py:184-191 | the comprehension computes exactly `StoredPoints` |
| Skinning.DenseRow | skinning.py:210-224 | succeeds exactly when every joint index fits the row, and is then zeros with each stored weight at its joint index, later pairs winning |
| Skinning.BuildRow | skinning.py:210-224 | the row loop computes exactly `DenseRow` |
| Skinning.ImportRows | skinning.py:206-227 | one row of `len(influence_indexes)` weights per source vertex, failing exactly when a row fails |
| Skinning.BuildMatrix | skinning.py:206-227 | the matrix loop builds the flattened `ImportRows`, or its first error |
| Skinning.SetWeightsSpec | skinning.py:172-234 | no method with a stored vertex count other than `number_of_verts` is an error; a result has one row of weights per source row |
| Skinning.ImportedRowAt | skinning.py:206-227 | row i of the imported weights is the row rebuilt from the i-th source vertex |
| Skinning.PositionsRedirectRows | skinning.py:183-214 | with "positions", row i comes from a stored vertex nearest to vertex i of the input mesh |
| Skinning.NormalsKeepVertexOrder | skinning.py:190-214 | with "normals", the matches are computed but unused: row i comes from stored vertex i |
| Skinning.InvalidMethodFallsBack | skinning.py:196-199 | an unrecognised method gives the point-order result, flagged as an invalid method |
| Skinning.InMemoryTableDoesNotImport | skinning.py:217 | the int-keyed table `get_weights` leaves in memory fails on the first vertex of a point-order import |
| Skinning.ExportedRowImports | skinning.py:156-224 | the record of an exported vertex rebuilds that vertex's weight chunk |
| Skinning.ExportFresh | skinning.py:144-165 | `get_weights` on a fresh handler fills every influence slot and stores one record per vertex |
| Skinning.ImportExported | skinning.py:172-234 | importing exported records through JSON in point order rebuilds the weight list |
| Skinning.ExportImportRoundTrip | skinning.py:144-234 | export, a JSON pass, then point-order import gives back exactly the weights |
| Skinning.Pad2 | skinning.py:247 | a field printed as `%02d`: two digits whose value is the field |
| Skinning.StampText | skinning.py:247 | `strftime("%m%d%H%M%S")`: ten digits |
| Skinning.StampValue | skinning.py:247 | the ten digits read as `mmddHHMMSS` in positional notation |
| Skinning.SnapshotIds | skinning.py:245-247 | a snapshot id is always listed as a snapshot, a year id never is, and the snapshot id decodes back into month, day, hour, minute and second |
| Skinning.BakeEntries | skinning.py:277-284 | one `name:weight` entry per existing plug, failing exactly when one plug has no influence |
| Skinning.BakeTexts | skinning.py:259-287 | one bake string per vertex, failing exactly when one vertex does |
| Skinning.BakeVertexString | skinning.py:275-284 | the plug loop computes exactly `BakeText` |
| Skinning.BakeVertexStrings | skinning.py:259-287 | the vertex loop computes exactly `BakeTexts` |
| Skinning.BakeOnto | skinning.py:252-295 | the host after the bake is exactly `BakeSpec`: the type registered, string v on vertex v |
| Skinning.BakedVertexText | skinning.py:275-284 | a baked vertex string is the encoding of its entries, each named by an influence's partial path |
| Skinning.ShortIds | skinning.py:339-342 | every new influence's short name is a key, mapped to a later-or-equal index whose short name it is |
| Skinning.BuildShortIds | skinning.py:339-342 | the loop computes exactly `ShortIds` |
| Skinning.UnbakeText | skinning.py:350-361 | a read row has one slot per new influence |
| Skinning.UnbakeTextOk | skinning.py:354-361 | a string reads exactly when its non-empty pieces parse and name new influences |
| Skinning.ReadVertex | skinning.py:350-361 | the piece loop computes exactly `UnbakeText` |
| Skinning.UnbakeRows | skinning.py:348-364 | one row per vertex, each as wide as the influence list |
| Skinning.UnbakeAll | skinning.py:348-364 | the vertex loop builds the flattened `UnbakeRows`, or its first error |
| Skinning.RequestedNames | skinning.py:326-330 | a name is requested exactly when it is non-empty and names a piece of some stored string |
| Skinning.GatherNames | skinning.py:326-330 | the gathering loop computes exactly the requested names |
| Skinning.UnbakeParsed | skinning.py:354-361 | a parsed string puts each new influence's last stored weight at its index and zero elsewhere |
| Skinning.UnbakeByColumn | skinning.py:354-361 | through any name map that gives column c to the c-th name and to nothing else, a parsed string puts the last weight stored under each name in its column, and zero where none was |
| Skinning.ShortIdsColumns | skinning.py:339-342 | with distinct short names, `influences_ids` and the list of short names are inverse to each other |
| Skinning.BakedTextUnbakes | skinning.py:354-361 | an encoded entry list reads back by short name into the new influences |
| Skinning.BakeThenUnbake | skinning.py:243-364 | after a bake, unbaking onto any influences whose short names cover the baked names gives each vertex its baked weight per name and zero elsewhere |
| Skinning.BakeThenUnbakeRequests | skinning.py:326-330 | the influences requested by unbake are exactly the names the bake wrote |
| Skinning.RequestedReversed | skinning.py:323-330 | the requested names do not depend on the order the strings come back in |
| Skinning.SkinHandler.constructor | skinning.py:85-124 | no name leaves an empty handler; a name initialises it from the host's cluster |
| Skinning.SkinHandler.Init | skinning.py:85-124 | the handler is initialised for the name and the host is unchanged |
| Skinning.SkinHandler.SetInfluenceIndexes | skinning.py:127-132 | one logical index per influence object, in order |
| Skinning.SkinHandler.SetInfluences | skinning.py:134-138 | the slots are filled as `Fill` says up to the first index past them, which is an error |
| Skinning.SetSlots | skinning.py:134-138 | the loop fills the slots as `Fill` says up to the first logical index past them, and reports that index as the error |
| Skinning.SkinHandler.GetWeights | skinning.py:144-170 | the handler's data and result are exactly `GetWeightsSpec` of the old data and the host |
| Skinning.SkinHandler.SetWeights | skinning.py:172-241 | given data replaces the table; the host's weights become `SetWeightsSpec`, or nothing changes on an error |
| Skinning.FindRowSources | skinning.py:177-199 | the vertex-count check and the position or normal matching compute exactly `RowSources`: a missing stored vertex, or no stored points to match against, is an error |
| Skinning.SkinHandler.Bake | skinning.py:243-300 | a failed gather or bake changes nothing on the host; otherwise the host is `BakeSpec` under the chosen id. The id is returned for the lemmas to use; the source returns None |
| Skinning.SkinHandler.Unbake | skinning.py:302-376 | an unregistered id changes nothing; otherwise the influences are replaced by the created ones and the weights become the unbaked rows; when a row fails the weights are the new cluster's bind weights. The requested names are returned for the lemmas to use; the source returns None |
| SkinWeightManager.RemoveNamespace | skin_weight_manager.py:517 | a namespace-free name holds no colon |
| SkinWeightManager.RemoveNamespaceIdempotent | skin_weight_manager.py:589-592 | stripping namespaces twice strips nothing more |
| SkinWeightManager.StrippedNames | skin_weight_manager.py:589-591 | the namespace-free partial path of each influence, in influence order |
| SkinWeightManager.Assign | skin_weight_manager.py:520 | a dict assignment: the key maps to the new column and every other key keeps its value |
| SkinWeightManager.InfluenceColumnsAt | skin_weight_manager.py:514-520 | after the gather, influence c's name maps to column c: the weight at v * n + c for every whole row v |
| SkinWeightManager.InfluenceColumnsElsewhere | skin_weight_manager.py:515-520 | a key that names no influence keeps its old value |
| SkinWeightManager.InfluenceColumnsKeys | skin_weight_manager.py:515-520 | the keys after the gather are the old keys and the namespace-free influence names |
| SkinModel.Column | skin_weight_manager.py:518-519 | one weight per whole row of the flat list |
| SkinWeightManager.WriteColumn | skin_weight_manager.py:593-604 | a column write keeps the list's length |
| SkinWeightManager.WriteColumnOk | skin_weight_manager.py:593-604 | the write succeeds exactly when every written row's cell lies inside the list |
| SkinWeightManager.WrittenCell | skin_weight_manager.py:593-604 | only column c of the written rows changes, each to its imported value; with a selection only the selected rows are written |
| SkinWeightManager.ImportItemCell | skin_weight_manager.py:588-607 | one item changes only the cells of the first influence its name matches, in the rows it writes |
| SkinWeightManager.ImportedCell | skin_weight_manager.py:588-607 | after all items, a cell holds its column's imported value in a written row and its old weight otherwise |
| SkinWeightManager.ImportedUnused | skin_weight_manager.py:608-609 | the unused influences are exactly the imported names that match no influence, in dict order |
| SkinWeightManager.ImportedRemaining | skin_weight_manager.py:605-606 | each matched name is removed once from the remaining partial paths |
| SkinWeightManager.ImportItemsOk | skin_weight_manager.py:593-604 | items whose columns fit the list always import and keep the list's length |
| SkinWeightManager.GatherThenImport | skin_weight_manager.py:509-609 | gathering the dict then setting it back on the same cluster leaves the weights unchanged with no unused influence |
| SkinWeightManager.FindInfluence | skin_weight_manager.py:589-592 | the inner loop finds the first influence whose namespace-free name equals the item's |
| SkinWeightManager.WriteImported | skin_weight_manager.py:593-604 | the array is rewritten exactly as `WriteColumn` says, or left as it was on an error |
| SkinWeightManager.SkinData.constructor | skin_weight_manager.py:469-484 | a new dict with no weights, no blend weights and no selection, naming the cluster and shape |
| SkinWeightManager.SkinData.GetInfluenceWeights | skin_weight_manager.py:509-520 | every influence's column is stored under its namespace-free name; no influence is a division by zero |
| SkinWeightManager.SkinData.GatherData | skin_weight_manager.py:486-498 | the columns and the blend weights read into the dict, which is returned |
| SkinWeightManager.SkinData.SetInfluenceWeights | skin_weight_manager.py:569-621 | the host's weights become the imported weights and the answer says whether the remapper warning shows; an error changes nothing |
| SkinWeightManager.ImportAll | skin_weight_manager.py:588-608 | the whole import loop leaves in the array exactly the weights `ImportItems` gives for the items in order, with its unused names and remaining partial paths, or stops with the first failed write |
| SkinWeightManager.ImportOne | skin_weight_manager.py:588-607 | one item of the loop does exactly what `ImportItem` says: writes its column into the array, or notes its name as unused, or fails with that error |
| SkinWeightManager.SkinData.SetData | skin_weight_manager.py:553-562 | the dict is replaced, then the influence weights and the blend weights are set |
| SkinWeightManager.MissingInfluences | skin_weight_manager.py:233-239 | the imported names not among the current ones, in import order |
| SkinWeightManager.NothingMissing | skin_weight_manager.py:233-239 | nothing is missing exactly when every imported name is a current one |
| SkinWeightManager.ParallelSkinClusters | skin_weight_manager.py:222-239 | a fresh handler gathers the current dict, and the imported names missing from its keys are returned |
| SkinWeightManager.ReusedExactly | skin_weight_manager.py:205-239 | the current cluster is reused exactly when every imported name is the namespace-free name of one of its influences |
| SkinWeightManager.NewClusterAbandoned | skin_weight_manager.py:440-441 | no cluster is made exactly when there are names to import and no joint in the scene |
| SkinWeightManager.NewClusterPartition | skin_weight_manager.py:431-437 | the joints used and the joints left out partition the imported names, and every joint used is in the scene |
| SkinWeightManager.CreateNewSkinCluster | skin_weight_manager.py:426-445 | the partition loop and the abort rule compute exactly `NewClusterJoints` |
| SkinWeightManager.ImportInPlace | skin_weight_manager.py:201-214 | the data is set in place exactly when the geometry exists and its cluster covers every imported name; an uncovering cluster is always deleted |
| SkinWeightManager.StickyKeeps | skin_weight_manager.py:416-417 | once the loop has a geometry it keeps it |
| SkinWeightManager.StickyGiven | skin_weight_manager.py:416-417 | a given geometry is the one every dict is checked against |
| SkinWeightManager.VertCheck | skin_weight_manager.py:413-424 | passes exactly when every dict's blend-weight count is its geometry's vertex count; otherwise reports the first mismatching geometry |
| SkinWeightManager.LeadingDigits | skin_weight_manager.py:460 | the longest prefix made of digits |
| SkinWeightManager.FirstDigitRun | skin_weight_manager.py:460 | `re.search(r'\d+')`: none exactly when there is no digit, otherwise a non-empty run of digits |
| SkinWeightManager.ParseForIndexes | skin_weight_manager.py:455-462 | one index per string, in order, each the first digit run after the last dot; a string without one fails |
| SkinWeightManager.VertIndexOfVertString | skin_weight_manager.py:459-460 | the index read from `mesh.vtx[v]` is v |
| SkinWeightManager.ParseVertStrings | skin_weight_manager.py:455-462 | the indexes read from a list of vertex strings are their vertex numbers, in order |
| SkinWeightManager.BakeEntries | skin_weight_manager.py:385-392 | one entry per existing plug, named by the partial path of the influence whose id it carries |
| SkinWeightManager.BakeVertexText | skin_weight_manager.py:383-392 | the plug loop computes exactly `BakeText` |
| SkinWeightManager.BakeVertexTexts | skin_weight_manager.py:366-395 | the vertex loop collects one string per vertex, or the first error |
| SkinWeightManager.BakeVertexBlindData | skin_weight_manager.py:334-411 | the host after the bake is exactly `BakeSpec` |
| SkinWeightManager.BakedTextParses | skin_weight_manager.py:305-309 | a baked string parses back into one entry per plug with the plug's influence name and weight |
| SkinWeightManager.BakeStores | skin_weight_manager.py:401-407 | after a bake the type is registered and every vertex holds its baked string |
| SkinWeightManager.BakeIdempotent | skin_weight_manager.py:401-407 | baking twice leaves what baking once left |
| SkinWeightManager.PieceWrite | skin_weight_manager.py:306-313 | a read piece lands at `vert_id * influence_length + joint_id`, inside the array |
| SkinWeightManager.WritePiece | skin_weight_manager.py:306-313 | one piece read and written into the array exactly as `PieceWrite` says |
| SkinWeightManager.UnbakeVertex | skin_weight_manager.py:305-317 | the array gains exactly the vertex's writes and the id pattern their first-seen joint ids |
| SkinWeightManager.UnbakeWrites | skin_weight_manager.py:298-317 | the array gains every vertex's writes and the pattern lists the distinct joint ids in first-seen order |
| SkinWeightManager.InfluenceArray | skin_weight_manager.py:320-322 | entry i is i when i is in the pattern and 0 otherwise; an id past the end fails |
| SkinWeightManager.SetInfluenceArray | skin_weight_manager.py:320-322 | the loop computes exactly `InfluenceArray` |
| SkinWeightManager.InfluenceArrayIdentity | skin_weight_manager.py:320-322 | a distinct pattern whose ids fit gives the identity array |
| SkinWeightManager.StoredVerts | skin_weight_manager.py:255-256 | the vertex ids handed back beside the strings, highest first, each holding its string |
| SkinWeightManager.ZeroWeights | skin_weight_manager.py:289-295 | the pruned weight array: all zeros |
| SkinWeightManager.UnbakeVertexBlindData | skin_weight_manager.py:241-332 | names gathered, ids built, weights written and influence array set, exactly as `UnbakeSpec` |
| SkinWeightManager.BakeThenUnbakeVertex | skin_weight_manager.py:298-411 | a baked vertex read back onto influences whose short names cover the baked names writes each plug's weight at its named influence's column |
| Lists.RemoveFirst | skin_weight_manager.py:605-606 | `list.remove`: removes one occurrence when present, otherwise changes nothing |
| Lists.RemoveFirstAt | skin_weight_manager.py:605-606 | `list.remove` cuts out exactly the occurrence `list.index` finds, the first one, and keeps every other element in its order |

## Left out

- SkinUtils.ClosestPointInKdtree: returns the squared distance, not its square root. The k-d tree query is specified as a brute-force argmin over squared distance, and ties between equally near points are unspecified.
- Weights are natural-number fixed-point values, not floating point. Conversion between text and numbers is modelled as decimal text with a proved round trip.
- The NaN test on stored weight text (skin_cluster_manager.py:87) is not modelled, because fixed-point weights have no NaN.
- Clock readings (time.time, datetime.now) and the formatting of a time stamp (time.ctime) are parameters of the operations that use them. Timestamps that are only logged are left out.
- MayaUtils.GeometryFromBlindDataNode: returns some downstream transform. The source takes the first element of a set converted to a list; which transform that order picks is not modelled.
- Host-side effects are out of scope: the normalisation done by setting weights, undo chunks, unlocking `.liw`, skinPercent pruning, setting the cluster attributes and reading them (`getAttr` of each name in ATTRIBUTES) into the gathered dict, and selection. They are host calls, and the model keeps only the weight data those calls receive.
- JSON encoding, file reading and writing, logging, and the warning and info dialogs are left out. Every warning that ends an operation is modelled as an error value of a Result.
- KDTree.py, skinning/skin_cluster.py and utils/decorators.py are not part of this model.
- SkinClusterManager.ReadChunk: agrees with UnbakeChunk on success and failure and on the value read. It does not state which of the possible errors is raised first.
- The JSON dictionary keys of the skinning data are modelled as a datatype with an integer key and a text key, not as Python dictionary keys.
- The misspelled `OpenMaya.MGlobabl` lookup in skinning.py (line 310) raises an AttributeError. It is modelled as the error value UnknownSnapshot.
- An `import_method` of None is modelled as the empty text. Python truthiness of None and of an empty list is modelled as the empty sequence.
- The top-level wrappers read or write files around modelled handler calls and are not modelled separately. In skinning.py these are export_weights, import_weights, bake_weights and unbake_weights. In skin_weight_manager.py they are export_skin_weights, import_skin_weights, vertex_blind_data and _geometry_check. set_blend_weights is folded into SetData.
- remove_namespace is imported from a library outside this repository. It is modelled as the text after the last colon.
- Creating a skin cluster in the unbake paths is a host call. The influences of the created cluster are a parameter, and so are its initial bind weights in skinning.py's `unbake`.
- Skinning.SkinHandler.Unbake: the new cluster replaces the influences and the weights only. The weighted list, the plug entries and the blend weights of the deleted cluster are not reset on the host record, so an operation after an unbake that reads them sees the old cluster's values; the new cluster's values come from host code that is not modelled.
- SkinUtils.MeshFromBlindDataId: returns None when no blind-data node has the id. The source passes that None on to `find_all_outgoing` (utils/skin_utils.py:271-272), a host query whose answer for None is not modelled.
- SkinCluster.BaseSkinCluster: with no mesh set, GetWeightData, and SkinClusterManager.GetSkinningData and BakeWeights through it, fail with NoMesh. The other members act on the host record as if a skinCluster were present, where the source raises RuntimeError ("No mesh has been set") or TypeError ("No skinCluster found") from `skin_cluster_object`. A mesh without a skinCluster is not modelled at all.
- Digits are the ASCII digits 0-9. Python's `str.isdigit` and `int` also accept other Unicode digits, which Maya names and vertex strings do not contain.
