/**
 * `SkinClusterManager` from skin_cluster_manager.py, the newest revision of
 * the engine: export of a skinCluster's weights as sparse per-vertex records,
 * import of such records by vertex order or through a nearest-point remap,
 * baking the weights into string blind data and reading them back, and the
 * listing of baked snapshots.
 *
 * The clock and the calendar year are parameters; the host scene is the
 * `host` of the `BaseSkinCluster` handed in.
 */
module SkinClusterManager {
  import opened Wrappers
  import opened Text
  import opened Geometry
  import opened Lists
  import opened SkinModel
  import opened BakeFormat
  import opened SkinCluster
  import MayaUtils
  import SkinUtils

  // ---------------------------------------------------------------------------
  // snapshot ids

  /** The largest of a non-empty list of ids. */
  function MaxOf(xs: seq<int>): (m: int)
    requires |xs| > 0
    ensures m in xs
    ensures forall k :: 0 <= k < |xs| ==> xs[k] <= m
    decreases |xs|
  {
    if |xs| == 1 then xs[0]
    else
      var m := MaxOf(xs[..|xs| - 1]);
      assert forall k :: 0 <= k < |xs| - 1 ==> xs[..|xs| - 1][k] == xs[k];
      if xs[|xs| - 1] > m then xs[|xs| - 1] else m
  }

  /**
   * `get_unique_blind_data_id`: the clock reading when no blind-data type has
   * that id yet, otherwise one more than the largest id in use.
   */
  function UniqueBlindDataId(clock: int, existing: seq<int>): (r: int)
    ensures r !in existing
    ensures clock !in existing ==> r == clock
    ensures clock in existing ==> forall k :: 0 <= k < |existing| ==> existing[k] < r
  {
    if clock in existing then MaxOf(existing) + 1 else clock
  }

  /** `DEFAULT_BLIND_DATA_ID`: the calendar year at import time. */
  function DefaultBlindDataId(year: int): int
  {
    year
  }

  // ---------------------------------------------------------------------------
  // export

  /**
   * The record the export stores for one vertex: its position, its normal and
   * the (influence index, weight) pairs of its row whose weight is not zero.
   */
  function ExportRecord(position: Vec3, normal: Vec3, pairs: seq<WeightPair>): (v: VertexRecord)
    ensures v.position == position && v.normal == normal
    ensures |v.weights| <= |pairs|
    ensures forall k :: 0 <= k < |v.weights| ==> v.weights[k] in pairs && v.weights[k].value != 0
    ensures forall p :: p in pairs && p.value != 0 ==> p in v.weights
  {
    VertexRecord(position, normal, NonZero(pairs))
  }

  function Min(a: nat, b: nat): nat
  {
    if a < b then a else b
  }

  /**
   * What `get_skinning_data` exports for a skinCluster whose host is `h` and
   * whose influence indexes are `idx`: one record per chunk of the weight list,
   * each holding that chunk's non-zero pairs. A skinCluster without influences
   * fails on the zero step of its chunking; a chunk for a vertex the mesh has
   * no point or normal for fails on the index.
   */
  function ExportOf(h: HostMesh, idx: seq<nat>): (r: Result<SkinningData>)
    ensures |h.influences| == 0 ==> r == Err(ZeroStep)
    ensures |h.influences| > 0 ==>
      (r.Ok? <==> |Chunks(h.weights, |h.influences|)| <= Min(|h.points|, |h.normals|))
    ensures r.Ok? ==>
      var chunks := Chunks(h.weights, |h.influences|);
      r.value.inputGeometry == h.inputGeometry &&
      r.value.influences == FullPaths(h.influences) &&
      r.value.influenceIds == Range(|h.influences|) &&
      |r.value.verts| == |chunks| &&
      forall k :: 0 <= k < |chunks| ==>
        r.value.verts[k] == ExportRecord(h.points[k], h.normals[k], ZipRow(idx, chunks[k]))
  {
    var n := |h.influences|;
    if n == 0 then Err(ZeroStep)
    else
      var chunks := Chunks(h.weights, n);
      var m := |chunks|;
      if m > Min(|h.points|, |h.normals|) then Err(MissingVertex(Min(|h.points|, |h.normals|)))
      else Ok(SkinningData(h.inputGeometry, FullPaths(h.influences), Range(n),
        seq(m, k requires 0 <= k < m => ExportRecord(h.points[k], h.normals[k], ZipRow(idx, chunks[k])))))
  }

  /** Appending the record for vertex `v` keeps every earlier record in place. */
  lemma RecordsAppend(verts: seq<VertexRecord>, points: seq<Vec3>, normals: seq<Vec3>,
                      rows: seq<seq<WeightPair>>, v: nat)
    requires |verts| == v < |rows| && v < |points| && v < |normals|
    requires forall k :: 0 <= k < v ==> verts[k] == ExportRecord(points[k], normals[k], rows[k])
    ensures var next := verts + [ExportRecord(points[v], normals[v], rows[v])];
      forall k :: 0 <= k < v + 1 ==> next[k] == ExportRecord(points[k], normals[k], rows[k])
  {
  }

  /** A chunk without a point or normal makes the export fail on that vertex. */
  lemma ExportOfMissing(h: HostMesh, idx: seq<nat>, rows: seq<seq<WeightPair>>)
    requires |h.influences| > 0
    requires |rows| == |Chunks(h.weights, |h.influences|)| > Min(|h.points|, |h.normals|)
    ensures ExportOf(h, idx) == Err(MissingVertex(Min(|h.points|, |h.normals|)))
  {
  }

  /** Records built from the zipped rows, one per chunk, are exactly the export. */
  lemma ExportOfRecords(h: HostMesh, idx: seq<nat>, rows: seq<seq<WeightPair>>, verts: seq<VertexRecord>)
    requires |h.influences| > 0
    requires |rows| == |Chunks(h.weights, |h.influences|)|
    requires forall k :: 0 <= k < |rows| ==> rows[k] == ZipRow(idx, Chunks(h.weights, |h.influences|)[k])
    requires |verts| == |rows| && |rows| <= |h.points| && |rows| <= |h.normals|
    requires forall k :: 0 <= k < |rows| ==> verts[k] == ExportRecord(h.points[k], h.normals[k], rows[k])
    ensures ExportOf(h, idx) == Ok(SkinningData(h.inputGeometry, FullPaths(h.influences), Range(|h.influences|), verts))
  {
    var chunks := Chunks(h.weights, |h.influences|);
    assert verts == seq(|chunks|, k requires 0 <= k < |chunks| =>
      ExportRecord(h.points[k], h.normals[k], ZipRow(idx, chunks[k])));
  }

  /** `get_skinning_data`. */
  method GetSkinningData(sc: BaseSkinCluster) returns (r: Result<SkinningData>)
    ensures sc.influenceIndexes == null ==> r == Err(NoMesh)
    ensures sc.influenceIndexes != null ==> r == ExportOf(sc.host, sc.influenceIndexes[..])
  {
    if sc.influenceIndexes == null {
      return Err(NoMesh);
    }
    var weightData := sc.GetWeightData();
    if weightData.Err? {
      return Err(weightData.error);
    }
    var rows := weightData.value;
    var points, normals := sc.host.points, sc.host.normals;
    var verts: seq<VertexRecord> := [];
    var v := 0;
    while v < |rows|
      invariant 0 <= v <= |rows| && |verts| == v
      invariant v <= |points| && v <= |normals|
      invariant forall k :: 0 <= k < v ==> verts[k] == ExportRecord(points[k], normals[k], rows[k])
    {
      if v >= |points| || v >= |normals| {
        ExportOfMissing(sc.host, sc.influenceIndexes[..], rows);
        return Err(MissingVertex(v));
      }
      var weights := KeepNonZero(rows[v]);
      var record := VertexRecord(points[v], normals[v], weights);
      RecordsAppend(verts, points, normals, rows, v);
      verts := verts + [record];
      v := v + 1;
    }
    ExportOfRecords(sc.host, sc.influenceIndexes[..], rows, verts);
    r := Ok(SkinningData(sc.host.inputGeometry, sc.Influences(), Range(sc.NumberOfInfluences()), verts));
  }

  /** The inner loop of the export: the pairs of one row whose weight is not zero, in order. */
  method KeepNonZero(pairs: seq<WeightPair>) returns (weights: seq<WeightPair>)
    ensures weights == NonZero(pairs)
  {
    weights := [];
    var j := 0;
    while j < |pairs|
      invariant 0 <= j <= |pairs|
      invariant weights == NonZero(pairs[..j])
    {
      NonZeroAppend(pairs[..j], pairs[j]);
      assert pairs[..j + 1] == pairs[..j] + [pairs[j]];
      if pairs[j].value != 0 {
        weights := weights + [pairs[j]];
      }
      j := j + 1;
    }
    assert pairs[..j] == pairs;
  }

  // ---------------------------------------------------------------------------
  // import: one row

  /**
   * One stored pair turned into a slot of the current row: the stored index
   * names an influence of the data, that name is looked up in the current
   * influence list, and the slot must lie inside the row.
   */
  function ResolvePair(p: WeightPair, stored: seq<Name>, cur: seq<Name>, n: nat): (r: Result<WeightPair>)
    ensures r.Ok? <==>
      p.influence < |stored| && stored[p.influence] in cur && IndexOf(cur, stored[p.influence]).value < n
    ensures r.Ok? ==> r.value == WeightPair(IndexOf(cur, stored[p.influence]).value, p.value)
  {
    if p.influence >= |stored| then Err(MissingColumn(p.influence))
    else match IndexOf(cur, stored[p.influence])
      case None => Err(MissingInfluence(stored[p.influence]))
      case Some(j) => if j < n then Ok(WeightPair(j, p.value)) else Err(MissingColumn(j))
  }

  /** Every stored pair of a vertex resolved, in order; the first failure is the result. */
  function ResolveAll(pairs: seq<WeightPair>, stored: seq<Name>, cur: seq<Name>, n: nat): (r: Result<seq<WeightPair>>)
    ensures r.Ok? <==> forall k :: 0 <= k < |pairs| ==> ResolvePair(pairs[k], stored, cur, n).Ok?
    ensures r.Ok? ==> |r.value| == |pairs| && InRange(r.value, n)
    ensures r.Ok? ==> forall k :: 0 <= k < |pairs| ==> r.value[k] == ResolvePair(pairs[k], stored, cur, n).value
    decreases |pairs|
  {
    if pairs == [] then Ok([])
    else
      var init, last := pairs[..|pairs| - 1], pairs[|pairs| - 1];
      assert forall k :: 0 <= k < |init| ==> init[k] == pairs[k];
      match ResolveAll(init, stored, cur, n)
      case Err(e) => Err(e)
      case Ok(ps) =>
        match ResolvePair(last, stored, cur, n)
        case Err(e) => Err(e)
        case Ok(q) => Ok(ps + [q])
  }

  /**
   * `_get_weight_chunk` as a value: n zeros with each stored weight written,
   * in order, at the current column of its influence's name.
   */
  function ChunkOf(data: SkinningData, vertId: nat, cur: seq<Name>, n: nat): (r: Result<seq<Weight>>)
    ensures r.Ok? ==> |r.value| == n
    ensures vertId >= |data.verts| ==> r == Err(MissingVertex(vertId))
    ensures vertId < |data.verts| ==>
      (r.Ok? <==> ResolveAll(data.verts[vertId].weights, data.influences, cur, n).Ok?)
  {
    if vertId >= |data.verts| then Err(MissingVertex(vertId))
    else match ResolveAll(data.verts[vertId].weights, data.influences, cur, n)
      case Err(e) => Err(e)
      case Ok(ps) => Ok(Place(Zeros(n), ps))
  }

  /**
   * A weight read back from stored data lands on the column its influence has
   * in the current list, whatever order that list is in: the column of stored
   * influence i holds the weight of the last pair naming i, or zero.
   */
  lemma ChunkByName(data: SkinningData, vertId: nat, cur: seq<Name>, n: nat, i: nat)
    requires Distinct(data.influences) && i < |data.influences|
    requires ChunkOf(data, vertId, cur, n).Ok?
    requires data.influences[i] in cur && IndexOf(cur, data.influences[i]).value < n
    ensures vertId < |data.verts|
    ensures ChunkOf(data, vertId, cur, n).value[IndexOf(cur, data.influences[i]).value]
         == match LastAt(data.verts[vertId].weights, i) { case Some(v) => v case None => 0 }
  {
    var pairs := data.verts[vertId].weights;
    var ps := ResolveAll(pairs, data.influences, cur, n).value;
    LastAtResolvedPairs(pairs, data.influences, cur, n, i);
  }

  lemma {:induction false} LastAtResolvedPairs(pairs: seq<WeightPair>, stored: seq<Name>, cur: seq<Name>, n: nat, i: nat)
    requires Distinct(stored) && i < |stored| && stored[i] in cur
    requires ResolveAll(pairs, stored, cur, n).Ok?
    ensures LastAt(ResolveAll(pairs, stored, cur, n).value, IndexOf(cur, stored[i]).value) == LastAt(pairs, i)
    decreases |pairs|
  {
    if pairs != [] {
      var init, last := pairs[..|pairs| - 1], pairs[|pairs| - 1];
      LastAtResolvedPairs(init, stored, cur, n, i);
      var ps := ResolveAll(init, stored, cur, n).value;
      var q := ResolvePair(last, stored, cur, n).value;
      assert ResolveAll(pairs, stored, cur, n).value == ps + [q];
      LastAtAppend(ps, q, IndexOf(cur, stored[i]).value);
      if last.influence != i {
        assert stored[last.influence] != stored[i];
      }
    }
  }

  /** `_get_weight_chunk`: the row is built by index assignment, pair by pair. */
  method GetWeightChunk(vertId: nat, data: SkinningData, n: nat, cur: seq<Name>) returns (r: Result<seq<Weight>>)
    ensures r == ChunkOf(data, vertId, cur, n)
  {
    var chunk := Zeros(n);
    if vertId >= |data.verts| {
      return Err(MissingVertex(vertId));
    }
    var pairs := data.verts[vertId].weights;
    var j := 0;
    while j < |pairs|
      invariant 0 <= j <= |pairs|
      invariant ResolveAll(pairs[..j], data.influences, cur, n).Ok?
      invariant chunk == Place(Zeros(n), ResolveAll(pairs[..j], data.influences, cur, n).value)
    {
      assert pairs[..j + 1][..j] == pairs[..j];
      var q := ResolvePair(pairs[j], data.influences, cur, n);
      if q.Err? {
        assert ResolveAll(pairs[..j + 1], data.influences, cur, n).Err?;
        ResolveAllPrefixErr(pairs, data.influences, cur, n, j + 1);
        return Err(q.error);
      }
      chunk := chunk[q.value.influence := q.value.value];
      j := j + 1;
    }
    assert pairs[..j] == pairs;
    r := Ok(chunk);
  }

  /** Once a prefix of the pairs fails, the whole list fails with the same error. */
  lemma {:induction false} ResolveAllPrefixErr(pairs: seq<WeightPair>, stored: seq<Name>, cur: seq<Name>, n: nat, j: nat)
    requires j <= |pairs| && ResolveAll(pairs[..j], stored, cur, n).Err?
    ensures ResolveAll(pairs, stored, cur, n) == ResolveAll(pairs[..j], stored, cur, n)
    decreases |pairs| - j
  {
    if j < |pairs| {
      assert pairs[..j + 1][..j] == pairs[..j];
      ResolveAllPrefixErr(pairs, stored, cur, n, j + 1);
    } else {
      assert pairs[..j] == pairs;
    }
  }

  // ---------------------------------------------------------------------------
  // import: the remap of the caller's vertex list

  /**
   * One turn of the loop that rewrites the caller's `verts` list in place: the
   * value now at position i is looked up with `index`, and the slot holding its
   * first occurrence receives the matched point. A value past the end of the
   * point list is an IndexError.
   */
  function RemapStep(cur: seq<nat>, points: seq<nat>, i: nat): (r: Result<seq<nat>>)
    requires i < |cur|
    ensures r.Err? <==> cur[i] >= |points|
    ensures r.Ok? ==> |r.value| == |cur|
  {
    var v := cur[i];
    if v >= |points| then Err(MissingVertex(v))
    else Ok(cur[IndexOf(cur, v).value := points[v]])
  }

  /** The remap loop from position i to the end. */
  function RemapFrom(cur: seq<nat>, points: seq<nat>, i: nat): (r: Result<seq<nat>>)
    requires i <= |cur|
    ensures r.Ok? ==> |r.value| == |cur|
    decreases |cur| - i
  {
    if i == |cur| then Ok(cur)
    else match RemapStep(cur, points, i)
      case Err(e) => Err(e)
      case Ok(next) => RemapFrom(next, points, i + 1)
  }

  /** Lines 386-389: the caller's list is rewritten in place. */
  method RemapVerts(verts: array<nat>, points: seq<nat>) returns (r: Result<()>)
    modifies verts
    ensures r.Ok? <==> RemapFrom(old(verts[..]), points, 0).Ok?
    ensures r.Ok? ==> verts[..] == RemapFrom(old(verts[..]), points, 0).value
    ensures r.Err? ==> r.error == RemapFrom(old(verts[..]), points, 0).error
  {
    var i := 0;
    while i < verts.Length
      invariant 0 <= i <= verts.Length
      invariant RemapFrom(old(verts[..]), points, 0) == RemapFrom(verts[..], points, i)
    {
      var v := verts[i];
      if v >= |points| {
        return Err(MissingVertex(v));
      }
      var index := IndexOf(verts[..], v).value;
      verts[index] := points[v];
      i := i + 1;
    }
    return Ok(());
  }

  /**
   * When no matched point equals a vertex id still waiting further on in the
   * list, the in-place loop maps every id through the point list.
   */
  lemma RemapFromMaps(orig: seq<nat>, points: seq<nat>)
    requires forall k :: 0 <= k < |orig| ==> orig[k] < |points|
    requires forall a, b :: 0 <= a < b < |orig| ==> points[orig[a]] != orig[b]
    ensures RemapFrom(orig, points, 0) == Ok(seq(|orig|, k requires 0 <= k < |orig| => points[orig[k]]))
  {
    var mapped := seq(|orig|, k requires 0 <= k < |orig| => points[orig[k]]);
    assert mapped[..0] + orig[0..] == orig;
    RemapFromMapsFrom(orig, points, mapped, 0);
  }

  lemma {:induction false} RemapFromMapsFrom(orig: seq<nat>, points: seq<nat>, mapped: seq<nat>, i: nat)
    requires forall k :: 0 <= k < |orig| ==> orig[k] < |points|
    requires forall a, b :: 0 <= a < b < |orig| ==> points[orig[a]] != orig[b]
    requires mapped == seq(|orig|, k requires 0 <= k < |orig| => points[orig[k]])
    requires i <= |orig|
    ensures RemapFrom(mapped[..i] + orig[i..], points, i) == Ok(mapped)
    decreases |orig| - i
  {
    if i == |orig| {
      assert mapped[..i] + orig[i..] == mapped;
    } else {
      RemapStepMaps(orig, points, mapped, i);
      RemapFromMapsFrom(orig, points, mapped, i + 1);
    }
  }

  /** One turn of the loop on a list whose first i ids are already mapped. */
  lemma RemapStepMaps(orig: seq<nat>, points: seq<nat>, mapped: seq<nat>, i: nat)
    requires forall k :: 0 <= k < |orig| ==> orig[k] < |points|
    requires forall a, b :: 0 <= a < b < |orig| ==> points[orig[a]] != orig[b]
    requires mapped == seq(|orig|, k requires 0 <= k < |orig| => points[orig[k]])
    requires i < |orig|
    ensures RemapStep(mapped[..i] + orig[i..], points, i) == Ok(mapped[..i + 1] + orig[i + 1..])
  {
    var cur := mapped[..i] + orig[i..];
    assert |cur| == |orig| && cur[i] == orig[i];
    forall a | 0 <= a < i ensures cur[a] != orig[i] {
      assert cur[a] == mapped[a];
    }
    FirstOccurrence(cur, orig[i], i);
    SpliceNext(mapped, orig, i);
  }

  /** Writing position i of a list whose first i entries come from `mapped` extends that prefix by one. */
  lemma SpliceNext(mapped: seq<nat>, orig: seq<nat>, i: nat)
    requires |mapped| == |orig| && i < |orig|
    ensures (mapped[..i] + orig[i..])[i := mapped[i]] == mapped[..i + 1] + orig[i + 1..]
  {
    var cur := mapped[..i] + orig[i..];
    var next := mapped[..i + 1] + orig[i + 1..];
    forall k | 0 <= k < |orig| ensures cur[i := mapped[i]][k] == next[k] {
      if k < i {
        assert cur[k] == mapped[k] && next[k] == mapped[k];
      } else if k > i {
        assert cur[k] == orig[k] && next[k] == orig[k];
      }
    }
  }

  lemma FirstOccurrence(xs: seq<nat>, x: nat, i: nat)
    requires i < |xs| && xs[i] == x
    requires forall a :: 0 <= a < i ==> xs[a] != x
    ensures IndexOf(xs, x) == Some(i)
  {
  }

  /**
   * Vertices 0 and 1 matched crosswise (0 to 1, 1 to 0): the first turn writes
   * 1 over position 0, the second finds that 1 at position 0 and writes 0 back,
   * so the list comes out as [0, 1] rather than the mapped [1, 0].
   */
  lemma RemapCollision()
    ensures RemapFrom([0, 1], [1, 0], 0) == Ok([0, 1])
  {
    assert IndexOf([0, 1], 0) == Some(0);
    assert [0, 1][0 := 1] == [1, 1];
    assert IndexOf([1, 1], 1) == Some(0);
    assert [1, 1][0 := 0] == [0, 1];
  }

  // ---------------------------------------------------------------------------
  // import: the whole matrix

  /** What the row loop of `_get_weight_matrix` reads. */
  datatype ImportContext = ImportContext(
    data: SkinningData,
    points: seq<nat>,           // matched stored vertex per mesh vertex; empty for vertex order
    verts: seq<nat>,            // the (remapped) vertex subset; empty for all vertices
    chunks: seq<seq<Weight>>,   // the current weight chunks; empty when no subset is given
    cur: seq<Name>,             // the current influences
    n: nat)                     // the current number of influences

  /** The stored vertex row i is read from: i itself, or its matched point. */
  function RowId(ctx: ImportContext, i: nat): Result<nat>
  {
    if ctx.points == [] then Ok(i)
    else if i < |ctx.points| then Ok(ctx.points[i])
    else Err(MissingVertex(i))
  }

  /**
   * Row i of the matrix: the current chunk of the row's id when chunks exist
   * and that id is not in the subset (lines 400-401, the id being the
   * remapped one), otherwise the row rebuilt from the stored vertex.
   */
  function RowAt(ctx: ImportContext, i: nat): (r: Result<seq<Weight>>)
    ensures RowId(ctx, i).Err? ==> r.Err?
    ensures RowId(ctx, i).Ok? && (ctx.chunks == [] || RowId(ctx, i).value in ctx.verts) ==>
      r == ChunkOf(ctx.data, RowId(ctx, i).value, ctx.cur, ctx.n)
    ensures r.Ok? && Uniform(ctx.chunks, ctx.n) ==> |r.value| == ctx.n
  {
    match RowId(ctx, i)
    case Err(e) => Err(e)
    case Ok(id) =>
      if ctx.chunks != [] && id !in ctx.verts then
        (if id < |ctx.chunks| then Ok(ctx.chunks[id]) else Err(MissingVertex(id)))
      else ChunkOf(ctx.data, id, ctx.cur, ctx.n)
  }

  /** Rows 0..m-1, or the first row that fails. */
  function MatrixRows(ctx: ImportContext, m: nat): (r: Result<seq<seq<Weight>>>)
    ensures r.Ok? <==> forall i :: 0 <= i < m ==> RowAt(ctx, i).Ok?
    ensures r.Ok? ==> |r.value| == m && forall i :: 0 <= i < m ==> RowAt(ctx, i) == Ok(r.value[i])
    decreases m
  {
    if m == 0 then Ok([])
    else match MatrixRows(ctx, m - 1)
      case Err(e) => Err(e)
      case Ok(rows) =>
        match RowAt(ctx, m - 1)
        case Err(e) => Err(e)
        case Ok(row) => Ok(rows + [row])
  }

  /** The matrix itself: rows 0..m-1 concatenated. */
  function MatrixOf(ctx: ImportContext, m: nat): Result<seq<Weight>>
  {
    match MatrixRows(ctx, m)
    case Err(e) => Err(e)
    case Ok(rows) => Ok(Flatten(rows))
  }

  lemma {:induction false} MatrixRowsPrefixErr(ctx: ImportContext, i: nat, m: nat)
    requires i <= m && MatrixRows(ctx, i).Err?
    ensures MatrixRows(ctx, m) == MatrixRows(ctx, i)
    decreases m - i
  {
    if i < m {
      MatrixRowsPrefixErr(ctx, i, m - 1);
    }
  }

  // ---------------------------------------------------------------------------
  // import: matching stored vertices to mesh vertices

  /** The stored positions, or the stored normals, of every stored vertex. */
  function StoredPoints(data: SkinningData, normals: bool): (r: seq<Vec3>)
    ensures |r| == |data.verts|
  {
    seq(|data.verts|, k requires 0 <= k < |data.verts| =>
      if normals then data.verts[k].normal else data.verts[k].position)
  }

  /**
   * `_get_points`: for every world-space point of the mesh, a nearest stored
   * vertex. "position" searches the stored positions; "normal" searches the
   * stored normals, still with the mesh's world-space positions as queries.
   * Any other method is a TypeError.
   */
  function GetPoints(h: HostMesh, data: SkinningData, importMethod: string): (r: Result<seq<nat>>)
    ensures importMethod != "position" && importMethod != "normal" ==> r == Err(InvalidMethod(importMethod))
    ensures importMethod == "position" || importMethod == "normal" ==> (r.Ok? <==> |data.verts| > 0)
    ensures r.Ok? ==> |r.value| == |h.points|
    ensures r.Ok? ==> forall i :: 0 <= i < |h.points| ==>
      IsNearest(StoredPoints(data, importMethod == "normal"), h.points[i], r.value[i])
  {
    if importMethod == "position" then Correspond(StoredPoints(data, false), h.points)
    else if importMethod == "normal" then Correspond(StoredPoints(data, true), h.points)
    else Err(InvalidMethod(importMethod))
  }

  /**
   * Importing by position onto the very mesh the data was exported from
   * matches every mesh point with a stored vertex at distance zero.
   */
  lemma GetPointsOnSameMesh(h: HostMesh, data: SkinningData, i: nat)
    requires StoredPoints(data, false) == h.points && i < |h.points|
    ensures GetPoints(h, data, "position").Ok?
    ensures SqDist(h.points[GetPoints(h, data, "position").value[i]], h.points[i]) == 0.0
  {
    CorrespondSelf(h.points, i);
  }

  /** The points the remap uses: none for vertex order, else `_get_points`. */
  function ImportPoints(h: HostMesh, data: SkinningData, importMethod: string): Result<seq<nat>>
  {
    if importMethod == "" then Ok([]) else GetPoints(h, data, importMethod)
  }

  /**
   * `_get_weight_matrix` as a value: the current chunks are read only for a
   * vertex subset, the subset is remapped only when points are given too, and
   * then one row per mesh vertex is concatenated.
   */
  function ImportMatrix(h: HostMesh, data: SkinningData, points: seq<nat>, verts: seq<nat>): Result<seq<Weight>>
  {
    var n := |h.influences|;
    if verts != [] && n == 0 then Err(ZeroStep)
    else
      var chunks := if verts != [] then Chunks(h.weights, n) else [];
      var remapped := if points != [] && verts != [] then RemapFrom(verts, points, 0) else Ok(verts);
      match remapped
      case Err(e) => Err(e)
      case Ok(vs) => MatrixOf(ImportContext(data, points, vs, chunks, FullPaths(h.influences), n), |h.points|)
  }

  /** `_get_weight_matrix`. */
  method GetWeightMatrix(sc: BaseSkinCluster, data: SkinningData, points: seq<nat>, verts: array<nat>)
    returns (r: Result<seq<Weight>>)
    modifies verts
    ensures r == ImportMatrix(sc.host, data, points, old(verts[..]))
    ensures points == [] || verts.Length == 0 || sc.NumberOfInfluences() == 0 ==> verts[..] == old(verts[..])
    ensures points != [] && verts.Length > 0 && sc.NumberOfInfluences() > 0 &&
            RemapFrom(old(verts[..]), points, 0).Ok? ==>
              verts[..] == RemapFrom(old(verts[..]), points, 0).value
  {
    var chunks: seq<seq<Weight>> := [];
    if verts.Length > 0 {
      var c := sc.GetWeightChunks();
      if c.Err? {
        return Err(c.error);
      }
      chunks := c.value;
    }
    var n := sc.NumberOfInfluences();
    var nv := sc.NumberOfVerts();
    var cur := sc.Influences();
    if points != [] && verts.Length > 0 {
      var remapped := RemapVerts(verts, points);
      if remapped.Err? {
        return Err(remapped.error);
      }
    }
    r := FillMatrix(data, points, verts, chunks, cur, n, nv);
  }

  /** The row loop of `_get_weight_matrix`: one row per mesh vertex, extended onto the matrix. */
  method FillMatrix(data: SkinningData, points: seq<nat>, verts: array<nat>, chunks: seq<seq<Weight>>,
                    cur: seq<Name>, n: nat, nv: nat) returns (r: Result<seq<Weight>>)
    ensures r == MatrixOf(ImportContext(data, points, verts[..], chunks, cur, n), nv)
  {
    ghost var ctx := ImportContext(data, points, verts[..], chunks, cur, n);
    ghost var rows: seq<seq<Weight>> := [];
    var matrix: seq<Weight> := [];
    var i := 0;
    while i < nv
      invariant 0 <= i <= nv
      invariant MatrixRows(ctx, i) == Ok(rows) && matrix == Flatten(rows)
    {
      var row := ReadRow(data, points, verts[..], chunks, cur, n, i);
      if row.Err? {
        MatrixRowsErrAt(ctx, i, nv);
        return Err(row.error);
      }
      MatrixRowsStep(ctx, i, rows, row.value);
      rows := rows + [row.value];
      matrix := matrix + row.value;
      i := i + 1;
    }
    r := Ok(matrix);
  }

  /** One more row that reads extends the rows and the matrix. */
  lemma MatrixRowsStep(ctx: ImportContext, i: nat, rows: seq<seq<Weight>>, row: seq<Weight>)
    requires MatrixRows(ctx, i) == Ok(rows) && RowAt(ctx, i) == Ok(row)
    ensures MatrixRows(ctx, i + 1) == Ok(rows + [row])
    ensures Flatten(rows + [row]) == Flatten(rows) + row
  {
    FlattenAppend(rows, row);
  }

  /** One pass of the row loop of `_get_weight_matrix`: the current chunk, or the row rebuilt from the stored vertex. */
  method ReadRow(data: SkinningData, points: seq<nat>, verts: seq<nat>, chunks: seq<seq<Weight>>,
                 cur: seq<Name>, n: nat, i: nat) returns (r: Result<seq<Weight>>)
    ensures r == RowAt(ImportContext(data, points, verts, chunks, cur, n), i)
  {
    var id := i;
    if points != [] {
      if i >= |points| {
        return Err(MissingVertex(i));
      }
      id := points[i];
    }
    if chunks != [] && id !in verts {
      if id >= |chunks| {
        return Err(MissingVertex(id));
      }
      return Ok(chunks[id]);
    }
    r := GetWeightChunk(id, data, n, cur);
  }

  /** The first row that fails decides the matrix. */
  lemma MatrixRowsErrAt(ctx: ImportContext, i: nat, m: nat)
    requires i < m && MatrixRows(ctx, i).Ok? && RowAt(ctx, i).Err?
    ensures MatrixOf(ctx, m) == Err(RowAt(ctx, i).error)
  {
    MatrixRowsPrefixErr(ctx, i + 1, m);
  }

  // ---------------------------------------------------------------------------
  // import: what the matrix holds

  /** A stored vertex exported in the current influence order reads back as the row it came from. */
  lemma ExportedRowReads(data: SkinningData, cur: seq<Name>, row: seq<Weight>, i: nat)
    requires Distinct(cur) && |row| == |cur| && data.influences == cur
    requires i < |data.verts| && data.verts[i].weights == NonZero(ZipRow(Range(|cur|), row))
    ensures ChunkOf(data, i, cur, |cur|) == Ok(row)
  {
    var n := |cur|;
    var pairs := data.verts[i].weights;
    assert pairs == SparseRow(row);
    DensifySparseRow(row);
    ResolveOwnOrder(pairs, cur);
  }

  /** Pairs indexed into a list of distinct names resolve, against that same list, to themselves. */
  lemma ResolveOwnOrder(pairs: seq<WeightPair>, cur: seq<Name>)
    requires Distinct(cur) && forall k :: 0 <= k < |pairs| ==> pairs[k].influence < |cur|
    ensures ResolveAll(pairs, cur, cur, |cur|) == Ok(pairs)
  {
    forall k | 0 <= k < |pairs| ensures ResolvePair(pairs[k], cur, cur, |cur|) == Ok(pairs[k]) {
      IndexOfDistinct(cur, pairs[k].influence);
    }
    assert ResolveAll(pairs, cur, cur, |cur|).value == pairs;
  }

  /**
   * Vertex-order round trip: importing, with no matched points and no vertex
   * subset, the data exported from the same skinCluster gives back its weight
   * list, when the influences have distinct names and the weight list holds a
   * full row for every vertex.
   */
  lemma VertexOrderRoundTrip(h: HostMesh, data: SkinningData)
    requires ExportOf(h, Range(|h.influences|)) == Ok(data)
    requires Distinct(FullPaths(h.influences))
    requires |h.weights| == |h.points| * |h.influences|
    ensures ImportMatrix(h, data, [], []) == Ok(h.weights)
  {
    var n, nv := |h.influences|, |h.points|;
    var cur := FullPaths(h.influences);
    var chunks := Chunks(h.weights, n);
    ChunksCount(h.weights, n, nv);
    var ctx := ImportContext(data, [], [], [], cur, n);
    ExportedRowsRead(h, data, ctx);
    assert MatrixRows(ctx, nv).value == chunks;
    FlattenChunks(h.weights, n);
  }

  /** Every row of an export, read back in vertex order, is the vertex's chunk of the weight list. */
  lemma ExportedRowsRead(h: HostMesh, data: SkinningData, ctx: ImportContext)
    requires ExportOf(h, Range(|h.influences|)) == Ok(data)
    requires Distinct(FullPaths(h.influences))
    requires |h.weights| == |h.points| * |h.influences|
    requires |Chunks(h.weights, |h.influences|)| == |h.points|
    requires ctx == ImportContext(data, [], [], [], FullPaths(h.influences), |h.influences|)
    ensures forall i :: 0 <= i < |h.points| ==> RowAt(ctx, i) == Ok(Chunks(h.weights, |h.influences|)[i])
  {
    var chunks := Chunks(h.weights, |h.influences|);
    ChunksCount(h.weights, |h.influences|, |h.points|);
    forall i | 0 <= i < |h.points| ensures RowAt(ctx, i) == Ok(chunks[i]) {
      ExportedRowReads(data, FullPaths(h.influences), chunks[i], i);
    }
  }

  /**
   * With a vertex subset, a row whose (possibly remapped) id is not in the
   * subset is the current chunk of that id, copied unchanged into its place in
   * the matrix.
   */
  lemma {:induction false} KeptRowUnchanged(ctx: ImportContext, m: nat, i: nat, j: nat)
    requires MatrixRows(ctx, m).Ok? && Uniform(ctx.chunks, ctx.n)
    requires i < m && j < ctx.n && ctx.chunks != []
    requires RowId(ctx, i).Ok? && RowId(ctx, i).value !in ctx.verts
    ensures MatrixOf(ctx, m).Ok? && RowId(ctx, i).value < |ctx.chunks|
    ensures var matrix, row := MatrixOf(ctx, m).value, ctx.chunks[RowId(ctx, i).value];
      j < |row| && i * ctx.n + j < |matrix| && matrix[i * ctx.n + j] == row[j]
  {
    var rows := MatrixRows(ctx, m).value;
    var id := RowId(ctx, i).value;
    RowsUniform(ctx, m);
    KeptRowIs(ctx, m, i);
    MatrixOfRows(ctx, m);
    FlattenAtRow(rows, ctx.n, i, j, ctx.chunks[id]);
  }

  lemma {:induction false} FlattenAtRow(rows: seq<seq<Weight>>, n: nat, i: nat, j: nat, row: seq<Weight>)
    requires Uniform(rows, n) && i < |rows| && j < n && rows[i] == row
    ensures j < |row| && i * n + j < |Flatten(rows)| && Flatten(rows)[i * n + j] == row[j]
  {
    FlattenAt(rows, n, i, j);
  }

  lemma MatrixOfRows(ctx: ImportContext, m: nat)
    requires MatrixRows(ctx, m).Ok?
    ensures MatrixOf(ctx, m) == Ok(Flatten(MatrixRows(ctx, m).value))
  {
  }

  lemma RowsUniform(ctx: ImportContext, m: nat)
    requires MatrixRows(ctx, m).Ok? && Uniform(ctx.chunks, ctx.n)
    ensures Uniform(MatrixRows(ctx, m).value, ctx.n)
  {
    var rows := MatrixRows(ctx, m).value;
    forall k | 0 <= k < m ensures |rows[k]| == ctx.n {
      assert RowAt(ctx, k) == Ok(rows[k]);
    }
  }

  lemma KeptRowIs(ctx: ImportContext, m: nat, i: nat)
    requires MatrixRows(ctx, m).Ok? && i < m && ctx.chunks != []
    requires RowId(ctx, i).Ok? && RowId(ctx, i).value !in ctx.verts
    ensures RowId(ctx, i).value < |ctx.chunks|
    ensures MatrixRows(ctx, m).value[i] == ctx.chunks[RowId(ctx, i).value]
  {
    assert RowAt(ctx, i) == Ok(MatrixRows(ctx, m).value[i]);
  }

  /** A matrix built over a full weight list has one row of n weights per mesh vertex. */
  lemma ImportMatrixLength(h: HostMesh, data: SkinningData, points: seq<nat>, verts: seq<nat>)
    requires ImportMatrix(h, data, points, verts).Ok?
    requires |h.weights| == |h.points| * |h.influences|
    ensures |ImportMatrix(h, data, points, verts).value| == |h.points| * |h.influences|
  {
    var n := |h.influences|;
    var chunks := if verts != [] then Chunks(h.weights, n) else [];
    if verts != [] {
      ChunksCount(h.weights, n, |h.points|);
    }
    assert Uniform(chunks, n);
    var vs := if points != [] && verts != [] then RemapFrom(verts, points, 0).value else verts;
    var ctx := ImportContext(data, points, vs, chunks, FullPaths(h.influences), n);
    var rows := MatrixRows(ctx, |h.points|).value;
    RowsUniform(ctx, |h.points|);
    FlattenLength(rows, n);
  }

  /**
   * `set_skinning_data`: match points when a method is named, build the
   * matrix, and hand it to the host. Nothing is written when either step fails.
   */
  method SetSkinningData(sc: BaseSkinCluster, data: SkinningData, importMethod: string, verts: array<nat>)
    returns (r: Result<()>)
    modifies sc, verts
    ensures sc.mesh == old(sc.mesh) && sc.influenceIndexes == old(sc.influenceIndexes)
    ensures ImportPoints(old(sc.host), data, importMethod).Err? ==> r.Err? && sc.host == old(sc.host)
    ensures ImportPoints(old(sc.host), data, importMethod).Ok? ==>
      var m := ImportMatrix(old(sc.host), data, ImportPoints(old(sc.host), data, importMethod).value, old(verts[..]));
      (r.Ok? <==> m.Ok?) &&
      (m.Ok? ==> sc.host == old(sc.host).(weights := m.value)) &&
      (m.Err? ==> sc.host == old(sc.host))
  {
    var points := ImportPoints(sc.host, data, importMethod);
    if points.Err? {
      return Err(points.error);
    }
    var matrix := GetWeightMatrix(sc, data, points.value, verts);
    if matrix.Err? {
      return Err(matrix.error);
    }
    sc.SetWeights(matrix.value);
    return Ok(());
  }

  // ---------------------------------------------------------------------------
  // bake

  /**
   * The id `bake_weights` bakes under: the id given when it is not zero (a
   * missing id is zero), a fresh snapshot id when a snapshot is asked for, the
   * default id otherwise.
   */
  function ChooseBlindDataId(blindDataId: int, createSnapshot: bool, clock: int, existing: seq<int>, year: int): (r: int)
    ensures blindDataId != 0 ==> r == blindDataId
    ensures blindDataId == 0 && createSnapshot ==> r !in existing
    ensures blindDataId == 0 && !createSnapshot ==> r == DefaultBlindDataId(year)
  {
    if blindDataId != 0 then blindDataId
    else if createSnapshot then UniqueBlindDataId(clock, existing)
    else DefaultBlindDataId(year)
  }

  /** The baked text of one weighted influence: `"{bone_name}:{weight_value}|"`. */
  function SlotText(name: Name, v: Weight): string
  {
    Piece(Entry(name, v)) + "|"
  }

  /** Whether a pair can be baked: its index, and the index it maps to, name an influence and a slot. */
  predicate SlotOk(p: WeightPair, idx: seq<nat>, partial: seq<Name>, n: nat)
  {
    p.influence < |idx| && idx[p.influence] < |partial| && p.influence < n
  }

  /** `influence_objects[influence_indexes[j]].partialPathName()`, or nothing when an index is out of range. */
  function SlotName(idx: seq<nat>, partial: seq<Name>, j: nat): Name
  {
    if j < |idx| && idx[j] < |partial| then partial[idx[j]] else ""
  }

  /**
   * The chunk of n slots baked for one vertex: the slot of each pair's index
   * receives the text of that pair, a later pair on the same slot replacing an
   * earlier one, and every other slot stays empty. The first pair whose index
   * is out of range fails the bake.
   */
  function BakeSlots(pairs: seq<WeightPair>, idx: seq<nat>, partial: seq<Name>, n: nat): (r: Result<seq<string>>)
    ensures r.Ok? <==> forall k :: 0 <= k < |pairs| ==> SlotOk(pairs[k], idx, partial, n)
    ensures r.Ok? ==> |r.value| == n
    ensures r.Ok? ==> forall j :: 0 <= j < n ==>
      r.value[j] == match LastAt(pairs, j) { case Some(v) => SlotText(SlotName(idx, partial, j), v) case None => "" }
    decreases |pairs|
  {
    if pairs == [] then Ok(seq(n, _ => ""))
    else
      var init, p := pairs[..|pairs| - 1], pairs[|pairs| - 1];
      match BakeSlots(init, idx, partial, n)
      case Err(e) => Err(e)
      case Ok(slots) =>
        if SlotOk(p, idx, partial, n) then Ok(slots[p.influence := SlotText(partial[idx[p.influence]], p.value)])
        else Err(MissingColumn(p.influence))
  }

  /** `"".join(parts)`. */
  function Concat(parts: seq<string>): string
    decreases |parts|
  {
    if parts == [] then "" else Concat(parts[..|parts| - 1]) + parts[|parts| - 1]
  }

  /** The inner loop of the bake: fill the slots of one vertex, then join them. */
  method BakeVertex(pairs: seq<WeightPair>, idx: seq<nat>, partial: seq<Name>, n: nat) returns (r: Result<string>)
    ensures r.Ok? <==> BakeSlots(pairs, idx, partial, n).Ok?
    ensures r.Ok? ==> r.value == Concat(BakeSlots(pairs, idx, partial, n).value)
  {
    var chunk: seq<string> := seq(n, _ => "");
    var k := 0;
    while k < |pairs|
      invariant 0 <= k <= |pairs|
      invariant BakeSlots(pairs[..k], idx, partial, n) == Ok(chunk)
    {
      var p := pairs[k];
      assert pairs[..k + 1][..k] == pairs[..k];
      if !SlotOk(p, idx, partial, n) {
        return Err(MissingColumn(p.influence));
      }
      chunk := chunk[p.influence := SlotText(partial[idx[p.influence]], p.value)];
      k := k + 1;
    }
    assert pairs[..k] == pairs;
    r := Ok(Concat(chunk));
  }

  /** The string baked for vertex v; a vertex the data holds no record for fails on the index. */
  function BakeText(data: SkinningData, v: nat, idx: seq<nat>, partial: seq<Name>, n: nat): Result<string>
  {
    if v >= |data.verts| then Err(MissingVertex(v))
    else match BakeSlots(data.verts[v].weights, idx, partial, n)
      case Err(e) => Err(e)
      case Ok(slots) => Ok(Concat(slots))
  }

  /** The strings baked for vertices 0 .. nv - 1; the first vertex that fails fails the bake. */
  function BakeTexts(data: SkinningData, nv: nat, idx: seq<nat>, partial: seq<Name>, n: nat): (r: Result<seq<string>>)
    ensures r.Ok? <==> forall v :: 0 <= v < nv ==> BakeText(data, v, idx, partial, n).Ok?
    ensures r.Ok? ==> |r.value| == nv
    ensures r.Ok? ==> forall v :: 0 <= v < nv ==> BakeText(data, v, idx, partial, n) == Ok(r.value[v])
    decreases nv
  {
    if nv == 0 then Ok([])
    else match BakeTexts(data, nv - 1, idx, partial, n)
      case Err(e) => Err(e)
      case Ok(texts) =>
        match BakeText(data, nv - 1, idx, partial, n)
        case Err(e) => Err(e)
        case Ok(t) => Ok(texts + [t])
  }

  /** What `bake_weights` writes for a skinCluster whose host is `h` and whose influence indexes are `idx`. */
  function BakeAll(h: HostMesh, idx: seq<nat>): (r: Result<seq<string>>)
    ensures r.Ok? ==> |r.value| == |h.points|
  {
    match ExportOf(h, idx)
    case Err(e) => Err(e)
    case Ok(data) => BakeTexts(data, |h.points|, idx, PartialPaths(h.influences), |h.influences|)
  }

  /**
   * `bake_weights`: export the weights, bake one string per vertex and write
   * them, vertex v receiving string v, under the chosen blind-data id. It
   * returns the first polyBlindData node of the scene whose type id is the
   * chosen id, or None; `nodes` are the scene's polyBlindData nodes once the
   * strings are written. Nothing is written when the export or a vertex fails.
   */
  method BakeWeights(sc: BaseSkinCluster, createSnapshot: bool, blindDataId: int, clock: int, existing: seq<int>, year: int,
                     nodes: seq<MayaUtils.BlindDataNode>)
    returns (r: Result<Option<Name>>)
    modifies sc
    ensures sc.mesh == old(sc.mesh) && sc.influenceIndexes == old(sc.influenceIndexes)
    ensures old(sc.influenceIndexes) == null ==> r == Err(NoMesh) && sc.host == old(sc.host)
    ensures old(sc.influenceIndexes) != null ==> var texts := BakeAll(old(sc.host), old(sc.influenceIndexes[..]));
      var id := ChooseBlindDataId(blindDataId, createSnapshot, clock, existing, year);
      (r.Ok? <==> texts.Ok?) &&
      (texts.Err? ==> sc.host == old(sc.host)) &&
      (texts.Ok? ==> r.value == SkinUtils.NodeFromId(nodes, MayaUtils.IntId(id)) && sc.host == old(sc.host).(
        blindTypes := old(sc.host.blindTypes) + {id},
        blindData := old(sc.host.blindData)[id := WriteStrings(old(sc.Store(id)), Range(|old(sc.host.points)|), texts.value)]))
  {
    if sc.influenceIndexes == null {
      return Err(NoMesh);
    }
    var data := GetSkinningData(sc);
    if data.Err? {
      return Err(data.error);
    }
    var nv := sc.NumberOfVerts();
    var n := sc.NumberOfInfluences();
    var idx := sc.influenceIndexes[..];
    var partial := PartialPaths(sc.host.influences);
    var id := ChooseBlindDataId(blindDataId, createSnapshot, clock, existing, year);
    var texts := BakeVertices(data.value, nv, idx, partial, n);
    if texts.Err? {
      return Err(texts.error);
    }
    var written := sc.BakeVertexBlindData(texts.value, Range(nv), id);
    r := Ok(SkinUtils.NodeFromId(nodes, MayaUtils.IntId(id)));
  }

  /** The vertex loop of the bake: one string per vertex, in vertex order. */
  method BakeVertices(data: SkinningData, nv: nat, idx: seq<nat>, partial: seq<Name>, n: nat)
    returns (r: Result<seq<string>>)
    ensures r.Ok? <==> BakeTexts(data, nv, idx, partial, n).Ok?
    ensures r.Ok? ==> r == BakeTexts(data, nv, idx, partial, n)
  {
    var texts: seq<string> := [];
    var v := 0;
    while v < nv
      invariant 0 <= v <= nv
      invariant BakeTexts(data, v, idx, partial, n) == Ok(texts)
    {
      var text := BakeOneVertex(data, v, idx, partial, n);
      if text.Err? {
        BakeTextsFail(data, v, nv, idx, partial, n);
        return Err(text.error);
      }
      BakeTextsStep(data, v, idx, partial, n, texts);
      texts := texts + [text.value];
      v := v + 1;
    }
    r := Ok(texts);
  }

  /** The string of one vertex, or the error that stops the bake there. */
  method BakeOneVertex(data: SkinningData, v: nat, idx: seq<nat>, partial: seq<Name>, n: nat) returns (r: Result<string>)
    ensures r.Ok? <==> BakeText(data, v, idx, partial, n).Ok?
    ensures r.Ok? ==> r == BakeText(data, v, idx, partial, n)
  {
    if v >= |data.verts| {
      return Err(MissingVertex(v));
    }
    r := BakeVertex(data.verts[v].weights, idx, partial, n);
  }

  lemma BakeTextsStep(data: SkinningData, v: nat, idx: seq<nat>, partial: seq<Name>, n: nat, texts: seq<string>)
    requires BakeTexts(data, v, idx, partial, n) == Ok(texts) && BakeText(data, v, idx, partial, n).Ok?
    ensures BakeTexts(data, v + 1, idx, partial, n) == Ok(texts + [BakeText(data, v, idx, partial, n).value])
  {
  }

  lemma BakeTextsFail(data: SkinningData, v: nat, nv: nat, idx: seq<nat>, partial: seq<Name>, n: nat)
    requires v < nv && BakeText(data, v, idx, partial, n).Err?
    ensures BakeTexts(data, nv, idx, partial, n).Err?
  {
  }

  // ---------------------------------------------------------------------------
  // unbake

  /** `[influence.split("|")[-1] for influence in self.influences]`: the last path component of each influence. */
  function ShortNames(full: seq<Name>): (r: seq<Name>)
    ensures |r| == |full|
    ensures forall k :: 0 <= k < |full| ==> r[k] == LastPiece(full[k], '|') && '|' !in r[k]
  {
    seq(|full|, k requires 0 <= k < |full| => LastPiece(full[k], '|'))
  }

  /** A list in the opposite order. */
  function Reversed<T>(s: seq<T>): (r: seq<T>)
    ensures |r| == |s|
  {
    seq(|s|, i requires 0 <= i < |s| => s[|s| - 1 - i])
  }

  lemma ReversedTwice<T>(s: seq<T>)
    ensures Reversed(Reversed(s)) == s
  {
  }

  /** `list.reverse()`. */
  method ReverseInPlace<T>(a: array<T>)
    modifies a
    ensures a[..] == Reversed(old(a[..]))
  {
    var i := 0;
    while i < a.Length / 2
      invariant 0 <= i <= a.Length / 2
      invariant forall k :: 0 <= k < i ==> a[k] == old(a[a.Length - 1 - k]) && a[a.Length - 1 - k] == old(a[k])
      invariant forall k :: i <= k < a.Length - i ==> a[k] == old(a[k])
    {
      a[i], a[a.Length - 1 - i] := a[a.Length - 1 - i], a[i];
      i := i + 1;
    }
  }

  /**
   * The weight chunk read back from one vertex string: split on `|`, drop the
   * last piece, parse each `name:weight` piece and write its weight into the
   * column of its name among the short names; the other columns hold zero.
   * A piece that does not parse, or names no current influence, fails.
   */
  function UnbakeChunk(text: string, cur: seq<Name>): (r: Result<seq<Weight>>)
    ensures r.Ok? ==> |r.value| == |cur|
  {
    match ParseTrimmed(text)
    case Err(e) => Err(e)
    case Ok(es) =>
      match ResolveByIndex(es, cur)
      case Err(e) => Err(e)
      case Ok(ps) => Ok(Place(Zeros(|cur|), ps))
  }

  /**
   * The per-piece loop of `unbake_weights`, in its own order: the name is
   * looked up before the weight is parsed, so a bad piece may fail with a
   * different error than `UnbakeChunk` names, but it fails exactly when that does.
   */
  method ReadChunk(text: string, cur: seq<Name>) returns (r: Result<seq<Weight>>)
    ensures r.Ok? <==> UnbakeChunk(text, cur).Ok?
    ensures r.Ok? ==> r == UnbakeChunk(text, cur)
  {
    var chunk := Zeros(|cur|);
    var sets := DropLast(Split(text, '|'));
    ghost var es: seq<Entry> := [];
    var k := 0;
    while k < |sets|
      invariant 0 <= k <= |sets| && |es| == k
      invariant forall i :: 0 <= i < k ==> ParsePiece(sets[i]) == Ok(es[i])
      invariant ResolveByIndex(es, cur).Ok?
      invariant chunk == Place(Zeros(|cur|), ResolveByIndex(es, cur).value)
    {
      var piece := ReadPiece(sets[k], cur);
      if piece.Err? {
        ReadChunkFails(text, sets, k, cur);
        return Err(piece.error);
      }
      var (j, e) := piece.value;
      PiecesParsedStep(sets, es, e);
      ResolveStep(es, e, cur);
      es := es + [e];
      chunk := chunk[j := e.value];
      k := k + 1;
    }
    ReadChunkDone(text, sets, es, cur);
    r := Ok(chunk);
  }

  /** One more parsed piece extends the entries parsed so far. */
  lemma PiecesParsedStep(sets: seq<string>, es: seq<Entry>, e: Entry)
    requires |es| < |sets| && ParsePiece(sets[|es|]) == Ok(e)
    requires forall i :: 0 <= i < |es| ==> ParsePiece(sets[i]) == Ok(es[i])
    ensures forall i :: 0 <= i < |es| + 1 ==> ParsePiece(sets[i]) == Ok((es + [e])[i])
  {
  }

  /** Once every piece has parsed and resolved, the chunk is their weights placed on zeros. */
  lemma ReadChunkDone(text: string, sets: seq<string>, es: seq<Entry>, cur: seq<Name>)
    requires sets == DropLast(Split(text, '|')) && |es| == |sets|
    requires forall i :: 0 <= i < |sets| ==> ParsePiece(sets[i]) == Ok(es[i])
    requires ResolveByIndex(es, cur).Ok?
    ensures UnbakeChunk(text, cur) == Ok(Place(Zeros(|cur|), ResolveByIndex(es, cur).value))
  {
    ParseAllOfPieces(sets, es);
  }

  /**
   * One piece of that loop: its name must be a current influence, then its
   * weight must parse; the result is the influence's index and the entry.
   * skinning.py's `unbake` checks the two the other way round
   * (`Skinning.ReadPiece`).
   */
  method ReadPiece(piece: string, cur: seq<Name>) returns (r: Result<(nat, Entry)>)
    ensures r.Ok? ==> ParsePiece(piece) == Ok(r.value.1) && IndexOf(cur, r.value.1.name) == Some(r.value.0)
    ensures r.Err? ==> ParsePiece(piece).Err? || ParsePiece(piece).value.name !in cur
    ensures r.Err? ==> r.error == if Split(piece, ':')[0] in cur then Malformed(piece) else MissingInfluence(Split(piece, ':')[0])
  {
    var parts := Split(piece, ':');
    var name := parts[0];
    var j := IndexOf(cur, name);
    if j.None? {
      return Err(MissingInfluence(name));
    }
    if |parts| < 2 || ParseNat(parts[1]).None? {
      return Err(Malformed(piece));
    }
    return Ok((j.value, Entry(name, ParseNat(parts[1]).value)));
  }

  /** A piece that does not parse, or names no current influence, makes the chunk fail. */
  lemma ReadChunkFails(text: string, sets: seq<string>, k: nat, cur: seq<Name>)
    requires sets == DropLast(Split(text, '|'))
    requires k < |sets| && (ParsePiece(sets[k]).Err? || ParsePiece(sets[k]).value.name !in cur)
    ensures UnbakeChunk(text, cur).Err?
  {
    if ParseAll(sets).Ok? {
      assert ParsePiece(sets[k]) == Ok(ParseAll(sets).value[k]);
    }
  }

  /** Pieces that each parse to their entry parse, together, to the list of those entries. */
  lemma ParseAllOfPieces(pieces: seq<string>, es: seq<Entry>)
    requires |es| == |pieces|
    requires forall i :: 0 <= i < |pieces| ==> ParsePiece(pieces[i]) == Ok(es[i])
    ensures ParseAll(pieces) == Ok(es)
  {
    var r := ParseAll(pieces);
    assert r.Ok?;
    forall i | 0 <= i < |es| ensures r.value[i] == es[i] {
      assert ParsePiece(pieces[i]) == Ok(r.value[i]);
    }
    assert r.value == es;
  }

  /** Resolving one more entry appends its pair, and placing it sets that influence's weight. */
  lemma ResolveStep(es: seq<Entry>, e: Entry, cur: seq<Name>)
    requires ResolveByIndex(es, cur).Ok? && e.name in cur
    ensures ResolveByIndex(es + [e], cur) == Ok(ResolveByIndex(es, cur).value + [WeightPair(IndexOf(cur, e.name).value, e.value)])
    ensures Place(Zeros(|cur|), ResolveByIndex(es + [e], cur).value)
      == Place(Zeros(|cur|), ResolveByIndex(es, cur).value)[IndexOf(cur, e.name).value := e.value]
  {
    assert (es + [e])[..|es|] == es;
    var ps := ResolveByIndex(es, cur).value;
    var p := WeightPair(IndexOf(cur, e.name).value, e.value);
    assert (ps + [p])[..|ps|] == ps;
  }

  /**
   * Row v of the unbaked matrix: with a vertex subset (current chunks given),
   * a vertex outside the subset keeps its current chunk; every other vertex
   * gets the chunk read from its string.
   */
  function UnbakeRow(texts: seq<string>, cur: seq<Name>, chunks: seq<seq<Weight>>, verts: seq<nat>, v: nat): Result<seq<Weight>>
    requires v < |texts|
  {
    if chunks != [] && v !in verts then
      if v < |chunks| then Ok(chunks[v]) else Err(MissingVertex(v))
    else UnbakeChunk(texts[v], cur)
  }

  /** Rows 0 .. m - 1; the first row that fails fails them all. */
  function UnbakeRows(texts: seq<string>, cur: seq<Name>, chunks: seq<seq<Weight>>, verts: seq<nat>, m: nat)
    : (r: Result<seq<seq<Weight>>>)
    requires m <= |texts|
    ensures r.Ok? <==> forall v :: 0 <= v < m ==> UnbakeRow(texts, cur, chunks, verts, v).Ok?
    ensures r.Ok? ==> |r.value| == m
    ensures r.Ok? ==> forall v :: 0 <= v < m ==> UnbakeRow(texts, cur, chunks, verts, v) == Ok(r.value[v])
    decreases m
  {
    if m == 0 then Ok([])
    else match UnbakeRows(texts, cur, chunks, verts, m - 1)
      case Err(e) => Err(e)
      case Ok(rows) =>
        match UnbakeRow(texts, cur, chunks, verts, m - 1)
        case Err(e) => Err(e)
        case Ok(row) => Ok(rows + [row])
  }

  /**
   * What `unbake_weights` hands to `setWeights`, given the strings the host
   * returns for the id (highest vertex first), the full paths of the
   * influences, the current weight list and the vertex subset (empty for
   * all vertices). The strings are reversed into vertex order, one row is
   * built per string, and the rows are concatenated.
   */
  function UnbakeOf(stored: seq<string>, full: seq<Name>, weights: seq<Weight>, verts: seq<nat>): Result<seq<Weight>>
  {
    var n := |full|;
    if verts != [] && n == 0 then Err(ZeroStep)
    else
      var chunks := if verts != [] then Chunks(weights, n) else [];
      var texts := Reversed(stored);
      match UnbakeRows(texts, ShortNames(full), chunks, verts, |texts|)
      case Err(e) => Err(e)
      case Ok(rows) => Ok(Flatten(rows))
  }

  /**
   * `unbake_weights`: read the strings baked under the id back into a weight
   * list and hand it to the host. Nothing is written when a row fails.
   */
  method UnbakeWeights(sc: BaseSkinCluster, id: int, verts: seq<nat>) returns (r: Result<()>)
    modifies sc
    ensures sc.mesh == old(sc.mesh) && sc.influenceIndexes == old(sc.influenceIndexes)
    ensures var m := UnbakeOf(old(sc.VertexStringBlindData(id)), old(sc.Influences()), old(sc.host.weights), verts);
      (r.Ok? <==> m.Ok?) &&
      (m.Ok? ==> sc.host == old(sc.host).(weights := m.value)) &&
      (m.Err? ==> sc.host == old(sc.host))
  {
    var chunks: seq<seq<Weight>> := [];
    if verts != [] {
      var c := sc.GetWeightChunks();
      if c.Err? {
        return Err(c.error);
      }
      chunks := c.value;
    }
    var cur := ShortNames(sc.Influences());
    var stored := sc.VertexStringBlindData(id);
    var texts := new string[|stored|](i requires 0 <= i < |stored| => stored[i]);
    assert texts[..] == stored;
    ReverseInPlace(texts);
    var matrix := UnbakeVertices(texts, cur, chunks, verts);
    if matrix.Err? {
      return Err(matrix.error);
    }
    sc.SetWeights(matrix.value);
    r := Ok(());
  }

  /** The vertex loop of the unbake: one row per string, appended in vertex order. */
  method UnbakeVertices(texts: array<string>, cur: seq<Name>, chunks: seq<seq<Weight>>, verts: seq<nat>)
    returns (r: Result<seq<Weight>>)
    ensures r.Ok? <==> UnbakeRows(texts[..], cur, chunks, verts, texts.Length).Ok?
    ensures r.Ok? ==> r.value == Flatten(UnbakeRows(texts[..], cur, chunks, verts, texts.Length).value)
  {
    var matrix: seq<Weight> := [];
    ghost var rows: seq<seq<Weight>> := [];
    var v := 0;
    while v < texts.Length
      invariant 0 <= v <= texts.Length
      invariant UnbakeRows(texts[..], cur, chunks, verts, v) == Ok(rows)
      invariant matrix == Flatten(rows)
    {
      var row := UnbakeVertexRow(texts[..], cur, chunks, verts, v);
      if row.Err? {
        UnbakeRowsErrAt(texts[..], cur, chunks, verts, v, texts.Length);
        return Err(row.error);
      }
      UnbakeRowsStep(texts[..], cur, chunks, verts, v, rows, row.value);
      rows := rows + [row.value];
      matrix := matrix + row.value;
      v := v + 1;
    }
    r := Ok(matrix);
  }

  /** One pass of the vertex loop: the current chunk of a vertex outside the subset, otherwise the chunk read from its string. */
  method UnbakeVertexRow(texts: seq<string>, cur: seq<Name>, chunks: seq<seq<Weight>>, verts: seq<nat>, v: nat)
    returns (r: Result<seq<Weight>>)
    requires v < |texts|
    ensures r.Ok? <==> UnbakeRow(texts, cur, chunks, verts, v).Ok?
    ensures r.Ok? ==> UnbakeRow(texts, cur, chunks, verts, v) == Ok(r.value)
  {
    if chunks != [] && v !in verts {
      if v >= |chunks| {
        return Err(MissingVertex(v));
      }
      return Ok(chunks[v]);
    }
    r := ReadChunk(texts[v], cur);
  }

  /** One more row that reads extends the rows and the matrix. */
  lemma UnbakeRowsStep(texts: seq<string>, cur: seq<Name>, chunks: seq<seq<Weight>>, verts: seq<nat>, v: nat,
                       rows: seq<seq<Weight>>, row: seq<Weight>)
    requires v < |texts| && UnbakeRows(texts, cur, chunks, verts, v) == Ok(rows)
    requires UnbakeRow(texts, cur, chunks, verts, v) == Ok(row)
    ensures UnbakeRows(texts, cur, chunks, verts, v + 1) == Ok(rows + [row])
    ensures Flatten(rows + [row]) == Flatten(rows) + row
  {
    FlattenAppend(rows, row);
  }

  /** A row that fails fails the whole unbake. */
  lemma UnbakeRowsErrAt(texts: seq<string>, cur: seq<Name>, chunks: seq<seq<Weight>>, verts: seq<nat>, v: nat, m: nat)
    requires v < m <= |texts| && UnbakeRow(texts, cur, chunks, verts, v).Err?
    ensures UnbakeRows(texts, cur, chunks, verts, m).Err?
  {
  }

  // ---------------------------------------------------------------------------
  // bake, then unbake

  /** The host hands back vertex strings written on vertices 0 .. m - 1 in reverse vertex order. */
  lemma {:induction false} StoredDescendingAll(store: map<nat, string>, texts: seq<string>, m: nat)
    requires m <= |texts|
    requires forall v :: 0 <= v < m ==> v in store && store[v] == texts[v]
    ensures StoredDescending(store, m) == Reversed(texts[..m])
    decreases m
  {
    if m > 0 {
      StoredDescendingAll(store, texts, m - 1);
      assert texts[..m][..m - 1] == texts[..m - 1];
    }
  }

  /** Baking strings onto every vertex and reading them back gives them highest vertex first. */
  lemma StoredAfterBake(store: map<nat, string>, texts: seq<string>)
    ensures StoredDescending(WriteStrings(store, Range(|texts|), texts), |texts|) == Reversed(texts)
  {
    var written := WriteStrings(store, Range(|texts|), texts);
    forall v | 0 <= v < |texts| ensures v in written && written[v] == texts[v] {
      WriteStringsRange(store, texts, v);
    }
    StoredDescendingAll(written, texts, |texts|);
    assert texts[..|texts|] == texts;
  }

  /** The entries a dense row bakes to: one per non-zero weight, in column order, named by its column. */
  function SlotEntries(row: seq<Weight>, names: seq<Name>): (r: seq<Entry>)
    requires |row| <= |names|
    ensures forall k :: 0 <= k < |r| ==> r[k].name in names
    decreases |row|
  {
    if row == [] then []
    else
      var m := |row| - 1;
      SlotEntries(row[..m], names) + (if row[m] != 0 then [Entry(names[m], row[m])] else [])
  }

  lemma LookupAppend(es: seq<Entry>, e: Entry, name: Name)
    ensures Lookup(es + [e], name) == if e.name == name then Some(e.value) else Lookup(es, name)
  {
    assert (es + [e])[..|es|] == es;
  }

  /** Looking a column's name up in the baked entries finds the column's weight, or nothing when it is zero. */
  lemma {:induction false} LookupSlotEntries(row: seq<Weight>, names: seq<Name>, j: nat)
    requires |row| <= |names| && Distinct(names) && j < |names|
    ensures Lookup(SlotEntries(row, names), names[j]) == if j < |row| && row[j] != 0 then Some(row[j]) else None
    decreases |row|
  {
    if row != [] {
      var m := |row| - 1;
      var init := row[..m];
      LookupSlotEntries(init, names, j);
      if row[m] != 0 {
        LookupAppend(SlotEntries(init, names), Entry(names[m], row[m]), names[j]);
      } else {
        assert SlotEntries(row, names) == SlotEntries(init, names);
      }
    }
  }

  /** The joined slots of a baked row are the encoding of its entries. */
  lemma {:induction false} ConcatSlots(slots: seq<string>, row: seq<Weight>, names: seq<Name>, k: nat)
    requires |slots| == |row| <= |names| && k <= |row|
    requires forall j :: 0 <= j < |row| ==> slots[j] == if row[j] != 0 then SlotText(names[j], row[j]) else ""
    ensures Concat(slots[..k]) == Encode(SlotEntries(row[..k], names))
    decreases k
  {
    if k > 0 {
      ConcatSlots(slots, row, names, k - 1);
      ConcatLast(slots, k);
      SlotEntriesLast(row, names, k);
      SlotAppend(Concat(slots[..k - 1]), SlotEntries(row[..k - 1], names), slots[k - 1], names[k - 1], row[k - 1]);
    }
  }

  /** Appending one more slot to the joined slots appends its entry, if any, to the encoding. */
  lemma SlotAppend(done: string, es: seq<Entry>, slot: string, name: Name, w: Weight)
    requires done == Encode(es)
    requires slot == if w != 0 then SlotText(name, w) else ""
    ensures done + slot == Encode(es + (if w != 0 then [Entry(name, w)] else []))
  {
    if w != 0 {
      var e := Entry(name, w);
      EncodeAppend(es, e);
      assert done + (Piece(e) + "|") == done + Piece(e) + "|";
    } else {
      assert es + [] == es;
      assert done + "" == done;
    }
  }

  lemma ConcatLast(parts: seq<string>, k: nat)
    requires 0 < k <= |parts|
    ensures Concat(parts[..k]) == Concat(parts[..k - 1]) + parts[k - 1]
  {
    assert parts[..k][..k - 1] == parts[..k - 1];
  }

  lemma SlotEntriesLast(row: seq<Weight>, names: seq<Name>, k: nat)
    requires 0 < k <= |row| <= |names|
    ensures SlotEntries(row[..k], names)
         == SlotEntries(row[..k - 1], names) + (if row[k - 1] != 0 then [Entry(names[k - 1], row[k - 1])] else [])
  {
    assert row[..k][..k - 1] == row[..k - 1];
  }

  /** The slots a dense row bakes to, with the influence indexes in order. */
  lemma BakedSlotsOfRow(row: seq<Weight>, names: seq<Name>)
    requires |row| == |names|
    ensures BakeSlots(SparseRow(row), Range(|row|), names, |row|).Ok?
    ensures var slots := BakeSlots(SparseRow(row), Range(|row|), names, |row|).value;
      forall j :: 0 <= j < |row| ==> slots[j] == if row[j] != 0 then SlotText(names[j], row[j]) else ""
  {
    var n := |row|;
    SparseRowSlotsOk(row, names);
    forall j | 0 <= j < n
      ensures BakeSlots(SparseRow(row), Range(n), names, n).value[j] == if row[j] != 0 then SlotText(names[j], row[j]) else ""
    {
      BakedSlotOfColumn(row, names, j);
    }
  }

  /** Every sparse pair of a dense row has a slot to bake into. */
  lemma SparseRowSlotsOk(row: seq<Weight>, names: seq<Name>)
    requires |row| == |names|
    ensures forall k :: 0 <= k < |SparseRow(row)| ==> SlotOk(SparseRow(row)[k], Range(|row|), names, |row|)
  {
    DensifySparseRow(row);
  }

  /** Slot j of a dense row's chunk holds column j's weight under name j, or nothing when it is zero. */
  lemma BakedSlotOfColumn(row: seq<Weight>, names: seq<Name>, j: nat)
    requires |row| == |names| && j < |row|
    requires BakeSlots(SparseRow(row), Range(|row|), names, |row|).Ok?
    ensures BakeSlots(SparseRow(row), Range(|row|), names, |row|).value[j]
         == if row[j] != 0 then SlotText(names[j], row[j]) else ""
  {
    LastAtOfSparseRow(row, j);
  }

  /**
   * A chunk read back against short names `cur` from a row baked under
   * `names`: the column of each baked name holds that name's weight, and every
   * column whose name was not baked holds zero.
   */
  predicate PlacedByName(got: seq<Weight>, row: seq<Weight>, names: seq<Name>, cur: seq<Name>)
    requires |row| == |names| && |got| == |cur|
  {
    (forall j :: 0 <= j < |row| && names[j] in cur ==> got[IndexOf(cur, names[j]).value] == row[j]) &&
    (forall c :: 0 <= c < |cur| && cur[c] !in names ==> got[c] == 0)
  }

  /**
   * One vertex round trip under a reordered influence list: a dense row baked
   * under distinct, bakeable names and read back against another list of
   * distinct names that holds them all puts each weight in the column of its
   * name, and zero in every column whose name was not baked.
   */
  lemma BakeUnbakeRowInto(row: seq<Weight>, names: seq<Name>, cur: seq<Name>)
    requires |row| == |names| && Distinct(names) && Distinct(cur)
    requires forall k :: 0 <= k < |names| ==> Bakeable(names[k]) && names[k] in cur
    ensures BakeSlots(SparseRow(row), Range(|row|), names, |row|).Ok?
    ensures var got := UnbakeChunk(Concat(BakeSlots(SparseRow(row), Range(|row|), names, |row|).value), cur);
      got.Ok? && PlacedByName(got.value, row, names, cur)
  {
    BakedRowText(row, names);
    EntriesResolve(row, names, cur);
    PlacedEntries(row, names, cur);
  }

  /** The entries of a row baked under bakeable names parse back and resolve against names that hold them. */
  lemma EntriesResolve(row: seq<Weight>, names: seq<Name>, cur: seq<Name>)
    requires |row| == |names|
    requires forall k :: 0 <= k < |names| ==> Bakeable(names[k]) && names[k] in cur
    ensures ParseTrimmed(Encode(SlotEntries(row, names))) == Ok(SlotEntries(row, names))
    ensures ResolveByIndex(SlotEntries(row, names), cur).Ok?
  {
    var es := SlotEntries(row, names);
    forall k | 0 <= k < |es| ensures Bakeable(es[k].name) && es[k].name in cur {
      MemberBakeable(names, cur, es[k].name);
    }
    ParseEncode(es);
  }

  /** The resolved entries of a baked row, placed into a zero row, put each weight in its name's column. */
  lemma PlacedEntries(row: seq<Weight>, names: seq<Name>, cur: seq<Name>)
    requires |row| == |names| && Distinct(names) && Distinct(cur)
    requires ResolveByIndex(SlotEntries(row, names), cur).Ok?
    ensures PlacedByName(Place(Zeros(|cur|), ResolveByIndex(SlotEntries(row, names), cur).value), row, names, cur)
  {
    PlacedEntriesNamed(row, names, cur);
    PlacedEntriesUnnamed(row, names, cur);
  }

  /** The named half of PlacedEntries: each baked weight lands in its name's column. */
  lemma PlacedEntriesNamed(row: seq<Weight>, names: seq<Name>, cur: seq<Name>)
    requires |row| == |names| && Distinct(names) && Distinct(cur)
    requires ResolveByIndex(SlotEntries(row, names), cur).Ok?
    ensures var got := Place(Zeros(|cur|), ResolveByIndex(SlotEntries(row, names), cur).value);
      forall j :: 0 <= j < |row| && names[j] in cur ==> got[IndexOf(cur, names[j]).value] == row[j]
  {
    var es := SlotEntries(row, names);
    var got := Place(Zeros(|cur|), ResolveByIndex(es, cur).value);
    forall j | 0 <= j < |row| && names[j] in cur ensures got[IndexOf(cur, names[j]).value] == row[j] {
      RowSlotReadsBack(row, names, cur, es, j);
    }
  }

  /** The other half of PlacedEntries: a column whose name was not baked stays zero. */
  lemma PlacedEntriesUnnamed(row: seq<Weight>, names: seq<Name>, cur: seq<Name>)
    requires |row| == |names| && Distinct(cur)
    requires ResolveByIndex(SlotEntries(row, names), cur).Ok?
    ensures var got := Place(Zeros(|cur|), ResolveByIndex(SlotEntries(row, names), cur).value);
      forall c :: 0 <= c < |cur| && cur[c] !in names ==> got[c] == 0
  {
    var es := SlotEntries(row, names);
    var got := Place(Zeros(|cur|), ResolveByIndex(es, cur).value);
    forall c | 0 <= c < |cur| && cur[c] !in names ensures got[c] == 0 {
      IndexOfDistinct(cur, c);
      LastAtResolved(es, cur, cur[c]);
      LookupMissing(es, cur[c]);
    }
  }

  /** The text a dense row bakes to is the encoding of its non-zero entries, in column order. */
  lemma BakedRowText(row: seq<Weight>, names: seq<Name>)
    requires |row| == |names|
    ensures BakeSlots(SparseRow(row), Range(|row|), names, |row|).Ok?
    ensures Concat(BakeSlots(SparseRow(row), Range(|row|), names, |row|).value) == Encode(SlotEntries(row, names))
  {
    var n := |row|;
    BakedSlotsOfRow(row, names);
    var slots := BakeSlots(SparseRow(row), Range(n), names, n).value;
    ConcatSlots(slots, row, names, n);
    assert slots[..n] == slots && row[..n] == row;
  }

  /** One vertex round trip: read back against the names it was baked under, a row is itself again. */
  lemma BakeUnbakeRow(row: seq<Weight>, names: seq<Name>)
    requires |row| == |names| && Distinct(names)
    requires forall k :: 0 <= k < |names| ==> Bakeable(names[k])
    ensures BakeSlots(SparseRow(row), Range(|row|), names, |row|).Ok?
    ensures UnbakeChunk(Concat(BakeSlots(SparseRow(row), Range(|row|), names, |row|).value), names) == Ok(row)
  {
    BakeUnbakeRowInto(row, names, names);
    var got := UnbakeChunk(Concat(BakeSlots(SparseRow(row), Range(|row|), names, |row|).value), names).value;
    forall j | 0 <= j < |row| ensures got[j] == row[j] {
      IndexOfDistinct(names, j);
      assert names[j] in names;
    }
    assert got == row;
  }

  lemma MemberBakeable(names: seq<Name>, cur: seq<Name>, x: Name)
    requires x in names && forall k :: 0 <= k < |names| ==> Bakeable(names[k]) && names[k] in cur
    ensures Bakeable(x) && x in cur
  {
    var i :| 0 <= i < |names| && names[i] == x;
  }

  lemma {:induction false} LookupMissing(es: seq<Entry>, name: Name)
    requires forall k :: 0 <= k < |es| ==> es[k].name != name
    ensures Lookup(es, name) == None
    decreases |es|
  {
    if es != [] {
      LookupMissing(es[..|es| - 1], name);
    }
  }

  lemma RowSlotReadsBack(row: seq<Weight>, names: seq<Name>, cur: seq<Name>, es: seq<Entry>, j: nat)
    requires |row| == |names| && Distinct(names) && Distinct(cur) && j < |row| && names[j] in cur
    requires es == SlotEntries(row, names) && ResolveByIndex(es, cur).Ok?
    ensures Place(Zeros(|cur|), ResolveByIndex(es, cur).value)[IndexOf(cur, names[j]).value] == row[j]
  {
    LastAtResolved(es, cur, names[j]);
    LookupSlotEntries(row, names, j);
  }

  /** One exported vertex, baked and read back under its partial names, is its chunk of the weight list. */
  lemma BakedVertexReadsBack(h: HostMesh, data: SkinningData, v: nat)
    requires ExportOf(h, Range(|h.influences|)) == Ok(data)
    requires |h.weights| == |h.points| * |h.influences| && v < |h.points|
    requires Distinct(PartialPaths(h.influences))
    requires forall k :: 0 <= k < |h.influences| ==> Bakeable(h.influences[k].partialPath)
    ensures |Chunks(h.weights, |h.influences|)| == |h.points|
    ensures BakeText(data, v, Range(|h.influences|), PartialPaths(h.influences), |h.influences|).Ok?
    ensures UnbakeChunk(BakeText(data, v, Range(|h.influences|), PartialPaths(h.influences), |h.influences|).value,
      PartialPaths(h.influences)) == Ok(Chunks(h.weights, |h.influences|)[v])
  {
    var n := |h.influences|;
    var chunks := Chunks(h.weights, n);
    ChunksCount(h.weights, n, |h.points|);
    var row := chunks[v];
    assert data.verts[v].weights == SparseRow(row);
    BakeUnbakeRow(row, PartialPaths(h.influences));
  }

  /**
   * The bake round trip: baking every vertex of a skinCluster whose influences
   * have distinct short names free of `:` and `|`, each its own partial path,
   * and then unbaking all vertices from what the host stores, gives back the
   * weight list exactly.
   */
  lemma BakeThenUnbake(h: HostMesh, store: map<nat, string>)
    requires ExportOf(h, Range(|h.influences|)).Ok?
    requires |h.weights| == |h.points| * |h.influences|
    requires Distinct(PartialPaths(h.influences))
    requires forall k :: 0 <= k < |h.influences| ==> Bakeable(h.influences[k].partialPath)
    requires ShortNames(FullPaths(h.influences)) == PartialPaths(h.influences)
    ensures BakeAll(h, Range(|h.influences|)).Ok?
    ensures var texts := BakeAll(h, Range(|h.influences|)).value;
      UnbakeOf(StoredDescending(WriteStrings(store, Range(|texts|), texts), |texts|), FullPaths(h.influences), h.weights, [])
        == Ok(h.weights)
  {
    var n, nv := |h.influences|, |h.points|;
    var names := PartialPaths(h.influences);
    var data := ExportOf(h, Range(n)).value;
    var chunks := Chunks(h.weights, n);
    ChunksCount(h.weights, n, nv);
    forall v | 0 <= v < nv
      ensures BakeText(data, v, Range(n), names, n).Ok?
      ensures UnbakeChunk(BakeText(data, v, Range(n), names, n).value, names) == Ok(chunks[v])
    {
      BakedVertexReadsBack(h, data, v);
    }
    var texts := BakeTexts(data, nv, Range(n), names, n).value;
    assert BakeAll(h, Range(n)) == Ok(texts);
    var stored := StoredDescending(WriteStrings(store, Range(nv), texts), nv);
    StoredAfterBake(store, texts);
    ReversedTwice(texts);
    assert Reversed(stored) == texts;
    UnbakeAllRows(texts, names, chunks);
    FlattenChunks(h.weights, n);
  }

  /** One exported vertex, baked and read back against another list of short names. */
  lemma BakedVertexReadsInto(h: HostMesh, data: SkinningData, v: nat, cur: seq<Name>)
    requires ExportOf(h, Range(|h.influences|)) == Ok(data)
    requires |h.weights| == |h.points| * |h.influences| && v < |h.points|
    requires Distinct(PartialPaths(h.influences)) && Distinct(cur)
    requires forall k :: 0 <= k < |h.influences| ==>
      Bakeable(h.influences[k].partialPath) && h.influences[k].partialPath in cur
    ensures |Chunks(h.weights, |h.influences|)| == |h.points|
    ensures |Chunks(h.weights, |h.influences|)[v]| == |h.influences|
    ensures BakeText(data, v, Range(|h.influences|), PartialPaths(h.influences), |h.influences|).Ok?
    ensures var got := UnbakeChunk(BakeText(data, v, Range(|h.influences|), PartialPaths(h.influences), |h.influences|).value, cur);
      got.Ok? && PlacedByName(got.value, Chunks(h.weights, |h.influences|)[v], PartialPaths(h.influences), cur)
  {
    var n := |h.influences|;
    ChunksCount(h.weights, n, |h.points|);
    var row := Chunks(h.weights, n)[v];
    assert data.verts[v].weights == SparseRow(row);
    BakeUnbakeRowInto(row, PartialPaths(h.influences), cur);
  }

  /**
   * A weight list `m` over the short names `cur`, read back from a weight
   * list `w` over `names` on nv vertices: on every vertex, the column of each
   * baked name holds the weight that name had, and every other column holds zero.
   */
  ghost predicate RetargetedByName(m: seq<Weight>, cur: seq<Name>, w: seq<Weight>, names: seq<Name>, nv: nat)
  {
    (forall v, k :: 0 <= v < nv && 0 <= k < |names| && names[k] in cur ==>
      WeightAt(w, |names|, v, k).Some? && WeightAt(m, |cur|, v, IndexOf(cur, names[k]).value) == WeightAt(w, |names|, v, k)) &&
    (forall v, c :: 0 <= v < nv && 0 <= c < |cur| && cur[c] !in names ==> WeightAt(m, |cur|, v, c) == Some(0))
  }

  /** Rows each placed by name make a flat list retargeted by name. */
  lemma RowsRetargeted(m: seq<Weight>, rows: seq<seq<Weight>>, cur: seq<Name>, w: seq<Weight>, names: seq<Name>, nv: nat)
    requires |names| > 0 && |cur| > 0 && |rows| == nv
    requires Chunks(m, |cur|) == rows && Uniform(rows, |cur|)
    requires |Chunks(w, |names|)| == nv && Uniform(Chunks(w, |names|), |names|)
    requires forall v :: 0 <= v < nv ==> PlacedByName(rows[v], Chunks(w, |names|)[v], names, cur)
    ensures RetargetedByName(m, cur, w, names, nv)
  {
    RowsRetargetedNamed(m, rows, cur, w, names, nv);
    RowsRetargetedZero(m, rows, cur, w, names, nv);
  }

  /** The named half of that: each baked weight lands in the column of its name. */
  lemma RowsRetargetedNamed(m: seq<Weight>, rows: seq<seq<Weight>>, cur: seq<Name>, w: seq<Weight>, names: seq<Name>, nv: nat)
    requires |names| > 0 && |cur| > 0 && |rows| == nv
    requires Chunks(m, |cur|) == rows && Uniform(rows, |cur|)
    requires |Chunks(w, |names|)| == nv && Uniform(Chunks(w, |names|), |names|)
    requires forall v :: 0 <= v < nv ==> PlacedByName(rows[v], Chunks(w, |names|)[v], names, cur)
    ensures forall v, k :: 0 <= v < nv && 0 <= k < |names| && names[k] in cur ==>
      WeightAt(w, |names|, v, k).Some? && WeightAt(m, |cur|, v, IndexOf(cur, names[k]).value) == WeightAt(w, |names|, v, k)
  {
    forall v, k | 0 <= v < nv && 0 <= k < |names| && names[k] in cur
      ensures WeightAt(w, |names|, v, k).Some? && WeightAt(m, |cur|, v, IndexOf(cur, names[k]).value) == WeightAt(w, |names|, v, k)
    {
      assert PlacedByName(rows[v], Chunks(w, |names|)[v], names, cur);
    }
  }

  /** The zero half: a column whose name was not baked reads zero in every row. */
  lemma RowsRetargetedZero(m: seq<Weight>, rows: seq<seq<Weight>>, cur: seq<Name>, w: seq<Weight>, names: seq<Name>, nv: nat)
    requires |names| > 0 && |cur| > 0 && |rows| == nv
    requires Chunks(m, |cur|) == rows && Uniform(rows, |cur|)
    requires |Chunks(w, |names|)| == nv && Uniform(Chunks(w, |names|), |names|)
    requires forall v :: 0 <= v < nv ==> PlacedByName(rows[v], Chunks(w, |names|)[v], names, cur)
    ensures forall v, c :: 0 <= v < nv && 0 <= c < |cur| && cur[c] !in names ==> WeightAt(m, |cur|, v, c) == Some(0)
  {
    forall v, c | 0 <= v < nv && 0 <= c < |cur| && cur[c] !in names
      ensures WeightAt(m, |cur|, v, c) == Some(0)
    {
      assert PlacedByName(rows[v], Chunks(w, |names|)[v], names, cur);
    }
  }

  /**
   * The bake round trip across a reordering of the influences: unbaking all
   * vertices onto influences whose short names are distinct and include every
   * baked name, in any order, gives each vertex, in the column of each baked
   * influence, the weight it had on that influence, and zero in the column of
   * every influence that was not baked.
   */
  lemma BakeThenUnbakeReordered(h: HostMesh, full: seq<Name>, weights: seq<Weight>, store: map<nat, string>)
    requires ExportOf(h, Range(|h.influences|)).Ok?
    requires |h.weights| == |h.points| * |h.influences|
    requires Distinct(PartialPaths(h.influences)) && Distinct(ShortNames(full))
    requires forall k :: 0 <= k < |h.influences| ==>
      Bakeable(h.influences[k].partialPath) && h.influences[k].partialPath in ShortNames(full)
    ensures BakeAll(h, Range(|h.influences|)).Ok?
    ensures var texts := BakeAll(h, Range(|h.influences|)).value;
      var m := UnbakeOf(StoredDescending(WriteStrings(store, Range(|texts|), texts), |texts|), full, weights, []);
      m.Ok? && |m.value| == |h.points| * |full| &&
      RetargetedByName(m.value, ShortNames(full), h.weights, PartialPaths(h.influences), |h.points|)
  {
    var n, nv := |h.influences|, |h.points|;
    var names, cur := PartialPaths(h.influences), ShortNames(full);
    BakedTextsRead(h, cur);
    var texts := BakeAll(h, Range(n)).value;
    var stored := StoredDescending(WriteStrings(store, Range(nv), texts), nv);
    StoredAfterBake(store, texts);
    ReversedTwice(texts);
    assert |cur| > 0 by {
      assert names[0] in cur;
    }
    UnbakedRowsRetargeted(texts, cur, h.weights, names);
    assert UnbakeOf(stored, full, weights, []) == Ok(Flatten(UnbakeRows(texts, cur, [], [], nv).value));
  }

  /** Strings that each read back placed by name unbake, concatenated, to a list retargeted by name. */
  lemma UnbakedRowsRetargeted(texts: seq<string>, cur: seq<Name>, w: seq<Weight>, names: seq<Name>)
    requires |names| > 0 && |cur| > 0
    requires |Chunks(w, |names|)| == |texts| && Uniform(Chunks(w, |names|), |names|)
    requires forall v :: 0 <= v < |texts| ==>
      UnbakeChunk(texts[v], cur).Ok? && PlacedByName(UnbakeChunk(texts[v], cur).value, Chunks(w, |names|)[v], names, cur)
    ensures UnbakeRows(texts, cur, [], [], |texts|).Ok?
    ensures var m := Flatten(UnbakeRows(texts, cur, [], [], |texts|).value);
      |m| == |texts| * |cur| && RetargetedByName(m, cur, w, names, |texts|)
  {
    RowsOfTexts(texts, cur);
    var rows := UnbakeRows(texts, cur, [], [], |texts|).value;
    assert Uniform(rows, |cur|);
    var m := Flatten(rows);
    FlattenLength(rows, |cur|);
    ChunksOfFlatten(rows, |cur|);
    RowsRetargeted(m, rows, cur, w, names, |texts|);
  }

  /** With no vertex subset, row v of the unbake is the chunk read from string v. */
  lemma RowsOfTexts(texts: seq<string>, cur: seq<Name>)
    requires forall v :: 0 <= v < |texts| ==> UnbakeChunk(texts[v], cur).Ok?
    ensures UnbakeRows(texts, cur, [], [], |texts|).Ok?
    ensures forall v :: 0 <= v < |texts| ==>
      UnbakeRows(texts, cur, [], [], |texts|).value[v] == UnbakeChunk(texts[v], cur).value
  {
    var rows := UnbakeRows(texts, cur, [], [], |texts|);
    assert rows.Ok?;
    forall v | 0 <= v < |texts| ensures rows.value[v] == UnbakeChunk(texts[v], cur).value {
      assert UnbakeRow(texts, cur, [], [], v) == Ok(rows.value[v]);
    }
  }

  /** Every string the bake writes reads back, against names that hold the baked ones, placed by name. */
  lemma BakedTextsRead(h: HostMesh, cur: seq<Name>)
    requires ExportOf(h, Range(|h.influences|)).Ok?
    requires |h.weights| == |h.points| * |h.influences|
    requires Distinct(PartialPaths(h.influences)) && Distinct(cur)
    requires forall k :: 0 <= k < |h.influences| ==>
      Bakeable(h.influences[k].partialPath) && h.influences[k].partialPath in cur
    ensures BakeAll(h, Range(|h.influences|)).Ok?
    ensures |Chunks(h.weights, |h.influences|)| == |h.points|
    ensures Uniform(Chunks(h.weights, |h.influences|), |h.influences|)
    ensures var texts := BakeAll(h, Range(|h.influences|)).value;
      forall v :: 0 <= v < |h.points| ==>
        UnbakeChunk(texts[v], cur).Ok? &&
        PlacedByName(UnbakeChunk(texts[v], cur).value, Chunks(h.weights, |h.influences|)[v], PartialPaths(h.influences), cur)
  {
    var n, nv := |h.influences|, |h.points|;
    var names := PartialPaths(h.influences);
    var data := ExportOf(h, Range(n)).value;
    ChunksCount(h.weights, n, nv);
    forall v | 0 <= v < nv
      ensures BakeText(data, v, Range(n), names, n).Ok?
      ensures UnbakeChunk(BakeText(data, v, Range(n), names, n).value, cur).Ok?
      ensures PlacedByName(UnbakeChunk(BakeText(data, v, Range(n), names, n).value, cur).value,
        Chunks(h.weights, n)[v], names, cur)
    {
      BakedVertexReadsInto(h, data, v, cur);
    }
    assert BakeAll(h, Range(n)) == BakeTexts(data, nv, Range(n), names, n);
  }

  /** Strings that each read back as their chunk read back, all together, as the list of chunks. */
  lemma UnbakeAllRows(texts: seq<string>, names: seq<Name>, chunks: seq<seq<Weight>>)
    requires |texts| == |chunks|
    requires forall v :: 0 <= v < |texts| ==> UnbakeChunk(texts[v], names) == Ok(chunks[v])
    ensures UnbakeRows(texts, names, [], [], |texts|) == Ok(chunks)
  {
    var rows := UnbakeRows(texts, names, [], [], |texts|);
    forall v | 0 <= v < |texts| ensures UnbakeRow(texts, names, [], [], v) == Ok(chunks[v]) {
    }
    assert rows.Ok?;
    assert rows.value == chunks;
  }

  // ---------------------------------------------------------------------------
  // snapshots

  /** An id that is listed as a snapshot: `len(str(id))` is at least five. */
  predicate IsSnapshotId(id: int)
  {
    |ShowInt(id)| >= 5
  }

  /**
   * Only ids of five digits or more are listed (or, for a negative id, four
   * digits after the minus sign); the default id, a four-digit year, never is.
   */
  lemma SnapshotIdFilter(id: int)
    ensures id >= 0 ==> (IsSnapshotId(id) <==> id >= 10000)
    ensures id < 0 ==> (IsSnapshotId(id) <==> id <= -1000)
  {
    assert Pow10(4) == 10000 && Pow10(3) == 1000;
    if id >= 0 {
      ShowNatLength(id, 4);
    } else {
      ShowNatLength(-id, 3);
    }
  }

  lemma DefaultIdIsNotListed(year: int)
    requires 1000 <= year <= 9999
    ensures !IsSnapshotId(DefaultBlindDataId(year))
  {
    SnapshotIdFilter(DefaultBlindDataId(year));
  }

  /** A (mesh, blind-data id) pair met while scanning the scene; the mesh is None when it cannot be found. */
  type Sighting = (Option<Name>, int)

  /**
   * `{"id": blind_data_id, "timestamp": str(time.ctime(int(blind_data_id)))}`:
   * one listed snapshot. The clock's formatting `time.ctime` is the
   * parameter `ctime` of the operations that list snapshots.
   */
  datatype SnapshotInfo = SnapshotInfo(id: int, timestamp: string)

  function Info(id: int, ctime: int -> string): (r: SnapshotInfo)
    ensures r.id == id && r.timestamp == ctime(id)
  {
    SnapshotInfo(id, ctime(id))
  }

  /** Adding one sighting: skipped unless its id is a snapshot id, otherwise appended to its mesh's list. */
  function AddSighting(snapshots: map<Option<Name>, seq<SnapshotInfo>>, s: Sighting, ctime: int -> string): map<Option<Name>, seq<SnapshotInfo>>
  {
    if !IsSnapshotId(s.1) then snapshots
    else if s.0 !in snapshots then snapshots[s.0 := [Info(s.1, ctime)]]
    else snapshots[s.0 := snapshots[s.0] + [Info(s.1, ctime)]]
  }

  /** The dictionary built from sightings in order. */
  function Grouped(sightings: seq<Sighting>, ctime: int -> string): map<Option<Name>, seq<SnapshotInfo>>
    decreases |sightings|
  {
    if sightings == [] then map[]
    else AddSighting(Grouped(sightings[..|sightings| - 1], ctime), sightings[|sightings| - 1], ctime)
  }

  /** The snapshots sighted on a mesh, in the order they were met, each with its id's time stamp. */
  function IdsOn(sightings: seq<Sighting>, mesh: Option<Name>, ctime: int -> string): (r: seq<SnapshotInfo>)
    ensures forall k :: 0 <= k < |r| ==> IsSnapshotId(r[k].id) && r[k].timestamp == ctime(r[k].id)
    decreases |sightings|
  {
    if sightings == [] then []
    else
      var last := sightings[|sightings| - 1];
      IdsOn(sightings[..|sightings| - 1], mesh, ctime) +
        (if last.0 == mesh && IsSnapshotId(last.1) then [Info(last.1, ctime)] else [])
  }

  /**
   * The dictionary lists a mesh exactly when a snapshot id was sighted on it,
   * and then lists every snapshot sighted on it, in order.
   */
  lemma {:induction false} GroupedLists(sightings: seq<Sighting>, mesh: Option<Name>, ctime: int -> string)
    ensures mesh in Grouped(sightings, ctime) <==> IdsOn(sightings, mesh, ctime) != []
    ensures mesh in Grouped(sightings, ctime) ==> Grouped(sightings, ctime)[mesh] == IdsOn(sightings, mesh, ctime)
    decreases |sightings|
  {
    if sightings != [] {
      var init, last := sightings[..|sightings| - 1], sightings[|sightings| - 1];
      GroupedLists(init, mesh, ctime);
      var g, ids := Grouped(init, ctime), IdsOn(init, mesh, ctime);
      assert Grouped(sightings, ctime) == AddSighting(g, last, ctime);
      if last.0 == mesh && IsSnapshotId(last.1) {
        assert IdsOn(sightings, mesh, ctime) == ids + [Info(last.1, ctime)];
      } else {
        assert IdsOn(sightings, mesh, ctime) == ids;
      }
    }
  }

  lemma GroupedAppend(sightings: seq<Sighting>, s: Sighting, ctime: int -> string)
    ensures Grouped(sightings + [s], ctime) == AddSighting(Grouped(sightings, ctime), s, ctime)
  {
    assert (sightings + [s])[..|sightings|] == sightings;
  }

  lemma GroupedStep(sightings: seq<Sighting>, i: nat, ctime: int -> string)
    requires i < |sightings|
    ensures Grouped(sightings[..i + 1], ctime) == AddSighting(Grouped(sightings[..i], ctime), sightings[i], ctime)
  {
    assert sightings[..i + 1][..i] == sightings[..i];
  }

  /** `get_connected_snapshots`: one sighting per blind-data node in the scene, with the mesh its node feeds. */
  method GetConnectedSnapshots(sightings: seq<Sighting>, ctime: int -> string) returns (snapshots: map<Option<Name>, seq<SnapshotInfo>>)
    ensures snapshots == Grouped(sightings, ctime)
  {
    snapshots := map[];
    var i := 0;
    while i < |sightings|
      invariant 0 <= i <= |sightings|
      invariant snapshots == Grouped(sightings[..i], ctime)
    {
      var (mesh, id) := sightings[i];
      GroupedStep(sightings, i, ctime);
      if IsSnapshotId(id) {
        var info := SnapshotInfo(id, ctime(id));
        if mesh !in snapshots {
          snapshots := snapshots[mesh := [info]];
        } else {
          snapshots := snapshots[mesh := snapshots[mesh] + [info]];
        }
      }
      i := i + 1;
    }
    assert sightings[..i] == sightings;
  }

  /** One shape of the scene: its parent transform and the type ids of the blind-data nodes on it. */
  datatype ShapeBlindData = ShapeBlindData(mesh: Name, typeIds: seq<int>)

  /** The sightings of one shape, node by node. */
  function ShapeRow(shape: ShapeBlindData): (r: seq<Sighting>)
    ensures |r| == |shape.typeIds|
    ensures forall k :: 0 <= k < |r| ==> r[k] == (Some(shape.mesh), shape.typeIds[k])
  {
    seq(|shape.typeIds|, k requires 0 <= k < |shape.typeIds| => (Some(shape.mesh), shape.typeIds[k]))
  }

  /** The sightings `get_disconnected_snapshots` meets, shape by shape and node by node. */
  function ShapeSightings(shapes: seq<ShapeBlindData>): seq<Sighting>
    decreases |shapes|
  {
    if shapes == [] then [] else ShapeSightings(shapes[..|shapes| - 1]) + ShapeRow(shapes[|shapes| - 1])
  }

  /** `get_disconnected_snapshots`: the snapshots on the blind-data nodes of every shape, keyed by the shape's parent. */
  method GetDisconnectedSnapshots(shapes: seq<ShapeBlindData>, ctime: int -> string)
    returns (snapshots: map<Option<Name>, seq<SnapshotInfo>>)
    ensures snapshots == Grouped(ShapeSightings(shapes), ctime)
  {
    snapshots := map[];
    var i := 0;
    while i < |shapes|
      invariant 0 <= i <= |shapes|
      invariant snapshots == Grouped(ShapeSightings(shapes[..i]), ctime)
    {
      assert shapes[..i + 1][..i] == shapes[..i];
      snapshots := AddShape(snapshots, shapes[i], ShapeSightings(shapes[..i]), ctime);
      i := i + 1;
    }
    assert shapes[..i] == shapes;
  }

  /** The inner loop of `get_disconnected_snapshots`: the nodes of one shape. */
  method AddShape(snapshots: map<Option<Name>, seq<SnapshotInfo>>, shape: ShapeBlindData, ghost seen: seq<Sighting>,
                  ctime: int -> string)
    returns (r: map<Option<Name>, seq<SnapshotInfo>>)
    requires snapshots == Grouped(seen, ctime)
    ensures r == Grouped(seen + ShapeRow(shape), ctime)
  {
    r := snapshots;
    var row := ShapeRow(shape);
    ghost var done := seen;
    var j := 0;
    while j < |shape.typeIds|
      invariant 0 <= j <= |shape.typeIds|
      invariant done == seen + row[..j]
      invariant r == Grouped(done, ctime)
    {
      var id := shape.typeIds[j];
      GroupedAppend(done, row[j], ctime);
      PrefixStep(seen, row, j);
      if IsSnapshotId(id) {
        var info := SnapshotInfo(id, ctime(id));
        if Some(shape.mesh) !in r {
          r := r[Some(shape.mesh) := [info]];
        } else {
          r := r[Some(shape.mesh) := r[Some(shape.mesh)] + [info]];
        }
      }
      done := done + [row[j]];
      j := j + 1;
    }
    assert row[..j] == row;
  }

  lemma PrefixStep<T>(a: seq<T>, b: seq<T>, j: nat)
    requires j < |b|
    ensures a + b[..j + 1] == (a + b[..j]) + [b[j]]
  {
    assert b[..j + 1] == b[..j] + [b[j]];
  }

  /**
   * `get_all_snapshots`: the connected snapshots updated with the
   * disconnected ones. A mesh listed by both keeps only its disconnected list.
   */
  method GetAllSnapshots(connected: seq<Sighting>, shapes: seq<ShapeBlindData>, ctime: int -> string)
    returns (snapshots: map<Option<Name>, seq<SnapshotInfo>>)
    ensures snapshots.Keys == Grouped(connected, ctime).Keys + Grouped(ShapeSightings(shapes), ctime).Keys
    ensures forall mesh :: mesh in Grouped(ShapeSightings(shapes), ctime) ==>
      snapshots[mesh] == IdsOn(ShapeSightings(shapes), mesh, ctime)
    ensures forall mesh :: mesh in Grouped(connected, ctime) && mesh !in Grouped(ShapeSightings(shapes), ctime) ==>
      snapshots[mesh] == IdsOn(connected, mesh, ctime)
  {
    var c := GetConnectedSnapshots(connected, ctime);
    var d := GetDisconnectedSnapshots(shapes, ctime);
    snapshots := c + d;
    forall mesh | mesh in snapshots
      ensures mesh in d ==> snapshots[mesh] == IdsOn(ShapeSightings(shapes), mesh, ctime)
      ensures mesh !in d ==> snapshots[mesh] == IdsOn(connected, mesh, ctime)
    {
      GroupedLists(connected, mesh, ctime);
      GroupedLists(ShapeSightings(shapes), mesh, ctime);
    }
  }
}
