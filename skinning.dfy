/**
 * `SkinHandler` from skinning.py, the middle revision of the engine. A handler
 * caches a skinCluster's influence objects, their logical indexes and the
 * mesh's vertex count when it is made, and keeps the serialisable `data`
 * table: the input geometry, one slot per influence, and one record per
 * vertex. It exports that table from the host's weights, imports a table back
 * (by vertex order or by nearest stored position), bakes per-vertex weight
 * strings onto the mesh, and rebuilds a skinCluster from baked strings.
 */
module Skinning {
  import opened Wrappers
  import opened Text
  import opened Lists
  import opened Geometry
  import opened SkinModel
  import opened BakeFormat
  import opened SkinClusterManager

  /** A key of the `verts` table: an int while in memory, its decimal text once the table went through JSON. */
  datatype Key = IntKey(i: nat) | TextKey(s: string)

  /** `self.data`. */
  datatype HandlerData = HandlerData(
    inputGeometry: Name,
    influences: seq<Option<Name>>,   // one slot per influence, None until filled
    verts: map<Key, VertexRecord>)

  /** `n * [None]`. */
  function NoneSlots(n: nat): (r: seq<Option<Name>>)
    ensures |r| == n && forall j :: 0 <= j < n ==> r[j] == None
  {
    seq(n, j => None)
  }

  // ---------------------------------------------------------------------------
  // filling the influence slots

  /** The full path of the last influence whose logical index is j, if any. */
  function LastWith(infs: seq<Influence>, j: nat): Option<Name>
    decreases |infs|
  {
    if infs == [] then None
    else if infs[|infs| - 1].logicalIndex == j then Some(infs[|infs| - 1].fullPath)
    else LastWith(infs[..|infs| - 1], j)
  }

  /**
   * The slots after writing each influence's full path at its logical index,
   * first influence first: a slot some influence names holds the path of the
   * last one naming it, any other slot keeps its content.
   */
  function Fill(slots: seq<Option<Name>>, infs: seq<Influence>): (r: seq<Option<Name>>)
    requires forall k :: 0 <= k < |infs| ==> infs[k].logicalIndex < |slots|
    ensures |r| == |slots|
    ensures forall j :: 0 <= j < |slots| ==>
      r[j] == match LastWith(infs, j) { case Some(p) => Some(p) case None => slots[j] }
    decreases |infs|
  {
    if infs == [] then slots
    else
      var last := infs[|infs| - 1];
      Fill(slots, infs[..|infs| - 1])[last.logicalIndex := Some(last.fullPath)]
  }

  /** The length of the longest prefix of influences whose logical index fits in n slots. */
  function InRangePrefix(infs: seq<Influence>, n: nat): (k: nat)
    ensures k <= |infs|
    ensures forall i :: 0 <= i < k ==> infs[i].logicalIndex < n
    ensures k < |infs| ==> infs[k].logicalIndex >= n
    decreases |infs|
  {
    if infs == [] || infs[0].logicalIndex >= n then 0 else 1 + InRangePrefix(infs[1..], n)
  }

  /** With distinct logical indexes, the last influence naming a slot is the only one. */
  lemma {:induction false} LastWithDistinct(infs: seq<Influence>, k: nat)
    requires Distinct(LogicalIndexes(infs)) && k < |infs|
    ensures LastWith(infs, infs[k].logicalIndex) == Some(infs[k].fullPath)
    decreases |infs|
  {
    var init := infs[..|infs| - 1];
    if k < |infs| - 1 {
      assert LogicalIndexes(infs)[k] != LogicalIndexes(infs)[|infs| - 1];
      assert LogicalIndexes(init) == LogicalIndexes(infs)[..|infs| - 1];
      LastWithDistinct(init, k);
    }
  }

  /** No influence names a slot outside the logical indexes. */
  lemma {:induction false} LastWithAbsent(infs: seq<Influence>, j: nat)
    requires j !in LogicalIndexes(infs)
    ensures LastWith(infs, j) == None
    decreases |infs|
  {
    if infs != [] {
      var init := infs[..|infs| - 1];
      assert LogicalIndexes(init) == LogicalIndexes(infs)[..|infs| - 1];
      assert LogicalIndexes(infs)[|infs| - 1] == infs[|infs| - 1].logicalIndex;
      LastWithAbsent(init, j);
    }
  }

  /**
   * Starting from `n * [None]`, filling with influences of distinct logical
   * indexes below n puts each influence's full path at its logical index and
   * leaves every other slot None.
   */
  lemma FillSlots(infs: seq<Influence>, n: nat)
    requires Distinct(LogicalIndexes(infs))
    requires forall k :: 0 <= k < |infs| ==> infs[k].logicalIndex < n
    ensures forall k :: 0 <= k < |infs| ==> Fill(NoneSlots(n), infs)[infs[k].logicalIndex] == Some(infs[k].fullPath)
    ensures forall j :: 0 <= j < n && j !in LogicalIndexes(infs) ==> Fill(NoneSlots(n), infs)[j] == None
  {
    FillSlotsNamed(infs, n);
    FillSlotsEmpty(infs, n);
  }

  lemma FillSlotsNamed(infs: seq<Influence>, n: nat)
    requires Distinct(LogicalIndexes(infs))
    requires forall k :: 0 <= k < |infs| ==> infs[k].logicalIndex < n
    ensures forall k :: 0 <= k < |infs| ==> Fill(NoneSlots(n), infs)[infs[k].logicalIndex] == Some(infs[k].fullPath)
  {
    forall k | 0 <= k < |infs| ensures Fill(NoneSlots(n), infs)[infs[k].logicalIndex] == Some(infs[k].fullPath) {
      FillAt(infs, n, infs[k].logicalIndex);
      LastWithDistinct(infs, k);
    }
  }

  lemma FillSlotsEmpty(infs: seq<Influence>, n: nat)
    requires forall k :: 0 <= k < |infs| ==> infs[k].logicalIndex < n
    ensures forall j :: 0 <= j < n && j !in LogicalIndexes(infs) ==> Fill(NoneSlots(n), infs)[j] == None
  {
    forall j | 0 <= j < n && j !in LogicalIndexes(infs) ensures Fill(NoneSlots(n), infs)[j] == None {
      FillAt(infs, n, j);
      LastWithAbsent(infs, j);
    }
  }

  lemma FillAt(infs: seq<Influence>, n: nat, j: nat)
    requires forall k :: 0 <= k < |infs| ==> infs[k].logicalIndex < n
    requires j < n
    ensures Fill(NoneSlots(n), infs)[j] == LastWith(infs, j)
  {
  }

  // ---------------------------------------------------------------------------
  // exporting the weights into the table

  function Min(a: nat, b: nat): nat
  {
    if a < b then a else b
  }

  /**
   * The records `get_weights` stores, vertex by vertex, until it runs out of
   * chunks, positions of the input mesh or normals of the deformed mesh.
   */
  function Records(w: seq<Weight>, n: nat, idx: seq<nat>, positions: seq<Vec3>, normals: seq<Vec3>): (r: seq<VertexRecord>)
    requires n > 0
    ensures |r| == Min(|Chunks(w, n)|, Min(|positions|, |normals|))
  {
    var m := Min(|Chunks(w, n)|, Min(|positions|, |normals|));
    seq(m, v requires 0 <= v < m => VertexRecord(positions[v], normals[v], NonZero(ZipRow(idx, Chunks(w, n)[v]))))
  }

  /** One record per paired chunk, with the position and normal of its vertex, as far as all three lists reach. */
  function ZipRecords(info: seq<seq<WeightPair>>, positions: seq<Vec3>, normals: seq<Vec3>): (r: seq<VertexRecord>)
    ensures |r| == Min(|info|, Min(|positions|, |normals|))
  {
    var m := Min(|info|, Min(|positions|, |normals|));
    seq(m, v requires 0 <= v < m => VertexRecord(positions[v], normals[v], NonZero(info[v])))
  }

  /** Zipping the paired chunks with positions and normals gives `Records`. */
  lemma RecordsAre(w: seq<Weight>, n: nat, idx: seq<nat>, positions: seq<Vec3>, normals: seq<Vec3>, info: seq<seq<WeightPair>>)
    requires n > 0 && |info| == |Chunks(w, n)|
    requires forall k :: 0 <= k < |info| ==> info[k] == ZipRow(idx, Chunks(w, n)[k])
    ensures ZipRecords(info, positions, normals) == Records(w, n, idx, positions, normals)
  {
  }

  /** Records keyed by their vertex number, as a dict filled from `range(len(...))`. */
  function Keyed(recs: seq<VertexRecord>): (r: map<Key, VertexRecord>)
    ensures |r| == |recs|
    ensures forall v :: 0 <= v < |recs| ==> IntKey(v) in r && r[IntKey(v)] == recs[v]
    ensures forall k :: k in r ==> k.IntKey? && k.i < |recs|
    decreases |recs|
  {
    if recs == [] then map[]
    else Keyed(recs[..|recs| - 1])[IntKey(|recs| - 1) := recs[|recs| - 1]]
  }

  /**
   * The same records after a trip through a JSON file: JSON object keys are
   * text, so record v comes back under the decimal text of v.
   */
  function JsonTable(recs: seq<VertexRecord>): (r: map<Key, VertexRecord>)
    ensures forall v :: 0 <= v < |recs| ==> TextKey(ShowNat(v)) in r && r[TextKey(ShowNat(v))] == recs[v]
    ensures forall k :: k in r ==> k.TextKey? && exists v :: 0 <= v < |recs| && k.s == ShowNat(v)
    decreases |recs|
  {
    if recs == [] then map[]
    else
      var m := |recs| - 1;
      ShowNatInjective(m);
      JsonTable(recs[..m])[TextKey(ShowNat(m)) := recs[m]]
  }

  /** The table holds one entry per record: no two vertex numbers share a key. */
  lemma {:induction false} JsonTableSize(recs: seq<VertexRecord>)
    ensures |JsonTable(recs)| == |recs|
    decreases |recs|
  {
    if recs != [] {
      var m := |recs| - 1;
      JsonTableSize(recs[..m]);
      ShowNatInjective(m);
      assert TextKey(ShowNat(m)) !in JsonTable(recs[..m]);
    }
  }

  /** Distinct numbers print differently. */
  lemma ShowNatInjective(m: nat)
    ensures forall v :: ShowNat(v) == ShowNat(m) ==> v == m
  {
    forall v | ShowNat(v) == ShowNat(m) ensures v == m {
      ParseShowNat(v);
      ParseShowNat(m);
    }
  }

  /**
   * What `get_weights` leaves in the table and reports. It fills the influence
   * slots first (an influence whose logical index has no slot raises), splits
   * the weights into chunks of `number_of_influences` (none at all makes
   * `range` fail), and stores one record per chunk; a vertex beyond the
   * positions or normals raises after the records before it were stored.
   */
  function GetWeightsSpec(d: HandlerData, objs: seq<Influence>, idx: seq<nat>, h: HostMesh): (HandlerData, Result<()>)
  {
    var k := InRangePrefix(objs, |d.influences|);
    var filled := d.(influences := Fill(d.influences, objs[..k]));
    if k < |objs| then (filled, Err(MissingColumn(objs[k].logicalIndex)))
    else if |objs| == 0 then (filled, Err(ZeroStep))
    else
      var recs := Records(h.weights, |objs|, idx, h.inputPoints, h.normals);
      (filled.(verts := d.verts + Keyed(recs)),
       if |recs| == |Chunks(h.weights, |objs|)| then Ok(()) else Err(MissingVertex(|recs|)))
  }

  /** `skinning_info`: for each chunk of the weights, the influence indexes zipped with it. */
  method PairChunks(w: seq<Weight>, n: nat, idx: seq<nat>) returns (info: seq<seq<WeightPair>>)
    requires n > 0
    ensures |info| == |Chunks(w, n)|
    ensures forall k :: 0 <= k < |info| ==> info[k] == ZipRow(idx, Chunks(w, n)[k])
  {
    ghost var all := Chunks(w, n);
    info := [];
    var i := 0;
    while i < |w|
      invariant |info| <= |all|
      invariant forall k :: 0 <= k < |info| ==> info[k] == ZipRow(idx, all[k])
      invariant i <= |w| ==> Chunks(w[i..], n) == all[|info|..]
      invariant i > |w| ==> |info| == |all|
      decreases |w| - i
    {
      ChunksNext(w, n, i, all, |info|);
      PairedAppend(info, all, idx);
      info := info + [ZipRow(idx, Slice(w, i, n))];
      i := i + n;
    }
    if i == |w| {
      assert w[i..] == [];
    }
  }

  /** Pairing one more chunk extends the paired prefix by one. */
  lemma PairedAppend(info: seq<seq<WeightPair>>, all: seq<seq<Weight>>, idx: seq<nat>)
    requires |info| < |all| && forall k :: 0 <= k < |info| ==> info[k] == ZipRow(idx, all[k])
    ensures var more := info + [ZipRow(idx, all[|info|])];
      forall k :: 0 <= k < |more| ==> more[k] == ZipRow(idx, all[k])
  {
  }

  /**
   * The records `get_weights` stores: each vertex's position and normal with
   * the non-zero pairs of its chunk; a vertex beyond the positions or normals
   * raises after the records before it were stored.
   */
  method StoreRecords(w: seq<Weight>, n: nat, idx: seq<nat>, positions: seq<Vec3>, normals: seq<Vec3>)
    returns (recs: seq<VertexRecord>, r: Result<()>)
    requires n > 0
    ensures recs == Records(w, n, idx, positions, normals)
    ensures r == if |recs| == |Chunks(w, n)| then Ok(()) else Err(MissingVertex(|recs|))
  {
    var info := PairChunks(w, n, idx);
    recs := BuildRecords(info, positions, normals);
    RecordsAre(w, n, idx, positions, normals, info);
    r := if |recs| == |info| then Ok(()) else Err(MissingVertex(|recs|));
  }

  /** The record loop of `get_weights`: one record per paired chunk while positions and normals last. */
  method BuildRecords(info: seq<seq<WeightPair>>, positions: seq<Vec3>, normals: seq<Vec3>) returns (recs: seq<VertexRecord>)
    ensures recs == ZipRecords(info, positions, normals)
  {
    recs := [];
    var v := 0;
    while v < |info|
      invariant v <= |info| && |recs| == v
      invariant v <= |positions| && v <= |normals|
      invariant forall k :: 0 <= k < v ==> recs[k] == VertexRecord(positions[k], normals[k], NonZero(info[k]))
    {
      if v >= |positions| || v >= |normals| {
        break;
      }
      recs := recs + [VertexRecord(positions[v], normals[v], NonZero(info[v]))];
      v := v + 1;
    }
  }

  // ---------------------------------------------------------------------------
  // importing a table into the weights

  /** `str(vert_id)`: the key a table loaded from JSON holds vertex v's record under. */
  function StoredKey(v: nat): Key
  {
    TextKey(ShowNat(v))
  }

  /** `data['verts'][str(v)]`; a missing key raises. */
  function StoredRecord(verts: map<Key, VertexRecord>, v: nat): (r: Result<VertexRecord>)
    ensures r.Ok? <==> StoredKey(v) in verts
  {
    if StoredKey(v) in verts then Ok(verts[StoredKey(v)]) else Err(MissingVertex(v))
  }

  /** The stored positions, or normals, of vertices 0 to count - 1; the first missing record raises. */
  function StoredPoints(verts: map<Key, VertexRecord>, count: nat, normals: bool): (r: Result<seq<Vec3>>)
    ensures r.Ok? <==> forall v :: 0 <= v < count ==> StoredKey(v) in verts
    ensures r.Ok? ==> |r.value| == count && forall v :: 0 <= v < count ==>
      r.value[v] == (if normals then verts[StoredKey(v)].normal else verts[StoredKey(v)].position)
    decreases count
  {
    if count == 0 then Ok([])
    else
      match StoredPoints(verts, count - 1, normals)
      case Err(e) => Err(e)
      case Ok(ps) =>
        match StoredRecord(verts, count - 1)
        case Err(e) => Err(e)
        case Ok(rec) => Ok(ps + [if normals then rec.normal else rec.position])
  }

  /**
   * The stored vertex each row of the new weights is read from. Point order
   * (no method, or one that is not recognised) reads vertex i for row i; with
   * no method at all the table must hold as many records as the mesh has
   * vertices. "positions" reads, for each vertex of the input mesh, the
   * stored vertex nearest to it. "normals" matches each normal of the mesh to
   * the nearest stored normal but then reads vertex i for row i all the same.
   */
  function RowSources(verts: map<Key, VertexRecord>, how: string, nv: nat, h: HostMesh): Result<seq<nat>>
  {
    var count := |verts|;
    if how == "" && count != nv then Err(VertOrderMismatch)
    else if how == "positions" then
      match StoredPoints(verts, count, false)
      case Err(e) => Err(e)
      case Ok(src) => Correspond(src, h.inputPoints)
    else if how == "normals" then
      match StoredPoints(verts, count, true)
      case Err(e) => Err(e)
      case Ok(src) =>
        match Correspond(src, h.normals)
        case Err(e) => Err(e)
        case Ok(matches) => Ok(Range(|matches|))
    else Ok(Range(count))
  }

  /**
   * A row of zeros with each stored pair's weight written at its joint index,
   * pair by pair; a joint index past the end of the row raises.
   */
  function DenseRow(pairs: seq<WeightPair>, width: nat): (r: Result<seq<Weight>>)
    ensures r.Ok? <==> InRange(pairs, width)
    ensures r.Ok? ==> r.value == Place(Zeros(width), pairs)
    decreases |pairs|
  {
    if pairs == [] then Ok(Zeros(width))
    else
      var last := pairs[|pairs| - 1];
      match DenseRow(pairs[..|pairs| - 1], width)
      case Err(e) => Err(e)
      case Ok(row) => if last.influence < width then Ok(row[last.influence := last.value]) else Err(MissingColumn(last.influence))
  }

  /** The row rebuilt from the record stored for vertex v. */
  function ImportRow(verts: map<Key, VertexRecord>, v: nat, width: nat): Result<seq<Weight>>
  {
    match StoredRecord(verts, v)
    case Err(e) => Err(e)
    case Ok(rec) => DenseRow(rec.weights, width)
  }

  /** One row per source vertex, in order; the first row that cannot be rebuilt raises. */
  function ImportRows(verts: map<Key, VertexRecord>, sources: seq<nat>, width: nat): (r: Result<seq<seq<Weight>>>)
    ensures r.Ok? <==> forall i :: 0 <= i < |sources| ==> ImportRow(verts, sources[i], width).Ok?
    ensures r.Ok? ==> |r.value| == |sources| && Uniform(r.value, width)
    ensures r.Ok? ==> forall i :: 0 <= i < |sources| ==> ImportRow(verts, sources[i], width) == Ok(r.value[i])
    decreases |sources|
  {
    if sources == [] then Ok([])
    else
      var init := sources[..|sources| - 1];
      match ImportRows(verts, init, width)
      case Err(e) => Err(e)
      case Ok(rows) =>
        match ImportRow(verts, sources[|sources| - 1], width)
        case Err(e) => Err(e)
        case Ok(row) => Ok(rows + [row])
  }

  /** What `set_weights` reports once the weights are set. */
  datatype SetReport = SetReport(
    methodUsed: string,     // "point order" when no usable method was given
    rowsSet: nat,           // `len(points)`
    stored: nat,            // `len(self.data['verts'])`
    invalidMethod: bool)    // the "invalid method" warning was logged

  /**
   * The weights `set_weights` hands the host and its report, for a table, a
   * method ("" for None), the handler's vertex count and the width of a row
   * (`len(influence_indexes)`).
   */
  function SetWeightsSpec(d: HandlerData, how: string, nv: nat, width: nat, h: HostMesh): (r: Result<(seq<Weight>, SetReport)>)
    ensures r.Ok? ==> RowSources(d.verts, how, nv, h).Ok?
    ensures r.Ok? ==> |r.value.0| == |RowSources(d.verts, how, nv, h).value| * width
    ensures how == "" && |d.verts| != nv ==> r == Err(VertOrderMismatch)
  {
    match RowSources(d.verts, how, nv, h)
    case Err(e) => Err(e)
    case Ok(sources) =>
      match ImportRows(d.verts, sources, width)
      case Err(e) => Err(e)
      case Ok(rows) =>
        FlattenLength(rows, width);
        var known := how == "positions" || how == "normals";
        Ok((Flatten(rows), SetReport(if known then how else "point order", |sources|, |d.verts|, how != "" && !known)))
  }

  /** The vertex-matching part of `set_weights`: which stored vertex each row of the new weights comes from. */
  method FindRowSources(verts: map<Key, VertexRecord>, how: string, nv: nat, h: HostMesh) returns (r: Result<seq<nat>>)
    ensures r == RowSources(verts, how, nv, h)
  {
    var count := |verts|;
    if how == "" && count != nv {
      return Err(VertOrderMismatch);
    }
    if how == "positions" {
      var src := GatherStoredPoints(verts, count, false);
      if src.Err? {
        return Err(src.error);
      }
      r := Correspond(src.value, h.inputPoints);
    } else if how == "normals" {
      var src := GatherStoredPoints(verts, count, true);
      if src.Err? {
        return Err(src.error);
      }
      var matches := Correspond(src.value, h.normals);
      if matches.Err? {
        return Err(matches.error);
      }
      r := Ok(Range(|matches.value|));
    } else {
      r := Ok(Range(count));
    }
  }

  /**
   * The loop of `_set_influences` on the slots alone: each influence's full
   * path goes into the slot of its logical index, up to the first index that
   * has no slot.
   */
  method SetSlots(slots0: seq<Option<Name>>, objs: seq<Influence>) returns (slots: seq<Option<Name>>, r: Result<()>)
    ensures var k := InRangePrefix(objs, |slots0|);
      slots == Fill(slots0, objs[..k]) &&
      r == if k == |objs| then Ok(()) else Err(MissingColumn(objs[k].logicalIndex))
  {
    ghost var bound := InRangePrefix(objs, |slots0|);
    slots := slots0;
    var k := 0;
    while k < |objs|
      invariant k <= bound && |slots| == |slots0|
      invariant slots == Fill(slots0, objs[..k])
    {
      var id := objs[k].logicalIndex;
      if id >= |slots| {
        assert k == bound;
        return slots, Err(MissingColumn(id));
      }
      FillStep(slots0, objs, k);
      slots := slots[id := Some(objs[k].fullPath)];
      k := k + 1;
    }
    assert k == bound && objs[..k] == objs;
    return slots, Ok(());
  }

  /** Filling one more influence writes its full path into the slot of its logical index. */
  lemma FillStep(slots0: seq<Option<Name>>, objs: seq<Influence>, k: nat)
    requires k < |objs| && forall i :: 0 <= i <= k ==> objs[i].logicalIndex < |slots0|
    ensures Fill(slots0, objs[..k + 1]) == Fill(slots0, objs[..k])[objs[k].logicalIndex := Some(objs[k].fullPath)]
  {
    var b := objs[..k + 1];
    assert b[..|b| - 1] == objs[..k] && b[|b| - 1] == objs[k];
  }

  /** `[verts[str(v)][...] for v in range(count)]`. */
  method GatherStoredPoints(verts: map<Key, VertexRecord>, count: nat, normals: bool) returns (r: Result<seq<Vec3>>)
    ensures r == StoredPoints(verts, count, normals)
  {
    var ps: seq<Vec3> := [];
    for v := 0 to count
      invariant StoredPoints(verts, v, normals) == Ok(ps)
    {
      if StoredKey(v) !in verts {
        StoredPointsFail(verts, v, count, normals);
        return Err(MissingVertex(v));
      }
      var rec := verts[StoredKey(v)];
      ps := ps + [if normals then rec.normal else rec.position];
    }
    return Ok(ps);
  }

  /** Once some vertex below count has no record, the points up to count fail at the first missing one. */
  lemma {:induction false} StoredPointsFail(verts: map<Key, VertexRecord>, v: nat, count: nat, normals: bool)
    requires v < count && StoredKey(v) !in verts && StoredPoints(verts, v, normals).Ok?
    ensures StoredPoints(verts, count, normals) == Err(MissingVertex(v))
    decreases count
  {
    if count - 1 > v {
      StoredPointsFail(verts, v, count - 1, normals);
    }
  }

  /** The row for one record: zeros, then each pair's weight at its joint index. */
  method BuildRow(pairs: seq<WeightPair>, width: nat) returns (r: Result<seq<Weight>>)
    ensures r == DenseRow(pairs, width)
  {
    var row := Zeros(width);
    for k := 0 to |pairs|
      invariant DenseRow(pairs[..k], width) == Ok(row)
    {
      assert pairs[..k + 1][..k] == pairs[..k];
      var p := pairs[k];
      if p.influence >= width {
        DenseRowFail(pairs, k, width);
        return Err(MissingColumn(p.influence));
      }
      row := row[p.influence := p.value];
    }
    assert pairs[..|pairs|] == pairs;
    return Ok(row);
  }

  /** The first pair whose joint index is past the row decides the error. */
  lemma {:induction false} DenseRowFail(pairs: seq<WeightPair>, k: nat, width: nat)
    requires k < |pairs| && pairs[k].influence >= width && DenseRow(pairs[..k], width).Ok?
    ensures DenseRow(pairs, width) == Err(MissingColumn(pairs[k].influence))
    decreases |pairs|
  {
    if |pairs| - 1 > k {
      var init := pairs[..|pairs| - 1];
      assert init[..k] == pairs[..k];
      DenseRowFail(init, k, width);
    } else {
      assert pairs[..|pairs| - 1] == pairs[..k];
    }
  }

  /** The weight list for the given source vertices, one rebuilt row after another. */
  method BuildMatrix(verts: map<Key, VertexRecord>, sources: seq<nat>, width: nat) returns (r: Result<seq<Weight>>)
    ensures ImportRows(verts, sources, width).Err? ==> r == Err(ImportRows(verts, sources, width).error)
    ensures ImportRows(verts, sources, width).Ok? ==> r == Ok(Flatten(ImportRows(verts, sources, width).value))
  {
    var weights: seq<Weight> := [];
    ghost var rows: seq<seq<Weight>> := [];
    for i := 0 to |sources|
      invariant ImportRows(verts, sources[..i], width) == Ok(rows)
      invariant weights == Flatten(rows)
    {
      assert sources[..i + 1][..i] == sources[..i];
      var v := sources[i];
      if StoredKey(v) !in verts {
        ImportRowsFail(verts, sources, i, width);
        return Err(MissingVertex(v));
      }
      var row := BuildRow(verts[StoredKey(v)].weights, width);
      if row.Err? {
        ImportRowsFail(verts, sources, i, width);
        return Err(row.error);
      }
      FlattenAppend(rows, row.value);
      rows := rows + [row.value];
      weights := weights + row.value;
    }
    assert sources[..|sources|] == sources;
    return Ok(weights);
  }

  /** The first source vertex whose row cannot be rebuilt decides the error. */
  lemma {:induction false} ImportRowsFail(verts: map<Key, VertexRecord>, sources: seq<nat>, i: nat, width: nat)
    requires i < |sources| && ImportRow(verts, sources[i], width).Err?
    requires ImportRows(verts, sources[..i], width).Ok?
    ensures ImportRows(verts, sources, width) == Err(ImportRow(verts, sources[i], width).error)
    decreases |sources|
  {
    if |sources| - 1 > i {
      var init := sources[..|sources| - 1];
      assert init[..i] == sources[..i];
      ImportRowsFail(verts, init, i, width);
    } else {
      assert sources[..|sources| - 1] == sources[..i];
    }
  }

  // ---------------------------------------------------------------------------
  // what importing does

  /** Row i of imported weights is the row rebuilt from the record of the i-th source vertex. */
  lemma ImportedRowAt(d: HandlerData, how: string, nv: nat, width: nat, h: HostMesh, i: nat)
    requires width > 0 && SetWeightsSpec(d, how, nv, width, h).Ok?
    requires i < |RowSources(d.verts, how, nv, h).value|
    ensures var sources := RowSources(d.verts, how, nv, h).value;
      var w := SetWeightsSpec(d, how, nv, width, h).value.0;
      |Chunks(w, width)| == |sources| &&
      ImportRow(d.verts, sources[i], width) == Ok(Chunks(w, width)[i])
  {
    var sources := RowSources(d.verts, how, nv, h).value;
    var rows := ImportRows(d.verts, sources, width).value;
    ChunksOfFlatten(rows, width);
  }

  /** With "positions", row i is read from a stored vertex whose position is nearest to vertex i of the input mesh. */
  lemma PositionsRedirectRows(d: HandlerData, nv: nat, width: nat, h: HostMesh)
    requires SetWeightsSpec(d, "positions", nv, width, h).Ok?
    ensures StoredPoints(d.verts, |d.verts|, false).Ok?
    ensures var stored := StoredPoints(d.verts, |d.verts|, false).value;
      var sources := RowSources(d.verts, "positions", nv, h).value;
      |sources| == |h.inputPoints| &&
      forall i :: 0 <= i < |sources| ==> IsNearest(stored, h.inputPoints[i], sources[i])
  {
  }

  /**
   * With "normals", the nearest stored normals are worked out and then not
   * used: row i is read from stored vertex i, one row per normal of the mesh.
   */
  lemma NormalsKeepVertexOrder(d: HandlerData, nv: nat, width: nat, h: HostMesh)
    requires SetWeightsSpec(d, "normals", nv, width, h).Ok?
    ensures RowSources(d.verts, "normals", nv, h) == Ok(Range(|h.normals|))
  {
  }

  /**
   * A method that is not recognised falls back to point order, without the
   * vertex-count check that point order makes when no method is given.
   */
  lemma InvalidMethodFallsBack(d: HandlerData, how: string, nv: nat, width: nat, h: HostMesh)
    requires how != "" && how != "positions" && how != "normals"
    ensures var s, p := SetWeightsSpec(d, how, nv, width, h), SetWeightsSpec(d, "", |d.verts|, width, h);
      s.Ok? == p.Ok? && (s.Ok? ==> s.value.0 == p.value.0 && s.value.1 == p.value.1.(invalidMethod := true))
  {
  }

  /**
   * The table `get_weights` leaves in memory is keyed by ints, and point
   * order looks records up by their decimal text, so importing it without a
   * trip through JSON fails on the first vertex.
   */
  lemma InMemoryTableDoesNotImport(d: HandlerData, recs: seq<VertexRecord>, width: nat, h: HostMesh)
    requires d.verts == Keyed(recs) && |recs| > 0
    ensures SetWeightsSpec(d, "", |recs|, width, h) == Err(MissingVertex(0))
  {
    assert StoredKey(0) !in d.verts;
    assert Range(|recs|)[..0] == [];
    ImportRowsFail(d.verts, Range(|recs|), 0, width);
  }

  /** The record of a vertex exported with influence indexes 0, 1, 2, ... rebuilds that vertex's row. */
  lemma ExportedRowImports(w: seq<Weight>, n: nat, h: HostMesh, v: nat)
    requires n > 0 && |w| == |h.points| * n
    requires |h.inputPoints| >= |h.points| && |h.normals| >= |h.points|
    requires v < |h.points|
    ensures |Chunks(w, n)| == |h.points|
    ensures ImportRow(JsonTable(Records(w, n, Range(n), h.inputPoints, h.normals)), v, n) == Ok(Chunks(w, n)[v])
  {
    ChunksCount(w, n, |h.points|);
    var chunk := Chunks(w, n)[v];
    assert |chunk| == n;
    assert ZipRow(Range(n), chunk) == ZipRow(Range(|chunk|), chunk);
    DensifySparseRow(chunk);
  }

  /**
   * Exporting with `get_weights` on a fresh handler, writing the table out as
   * JSON and importing it back in point order gives the host the very weights
   * it had, when the influences' logical indexes are 0, 1, 2, ... in order and
   * the mesh holds one row of weights per vertex.
   */
  lemma ExportImportRoundTrip(h: HostMesh)
    requires |h.influences| > 0 && LogicalIndexes(h.influences) == Range(|h.influences|)
    requires |h.weights| == |h.points| * |h.influences|
    requires |h.inputPoints| >= |h.points| && |h.normals| >= |h.points|
    ensures var n := |h.influences|;
      var d := HandlerData(h.inputGeometry, NoneSlots(n), map[]);
      var recs := Records(h.weights, n, Range(n), h.inputPoints, h.normals);
      GetWeightsSpec(d, h.influences, Range(n), h) ==
        (d.(influences := Fill(NoneSlots(n), h.influences), verts := Keyed(recs)), Ok(())) &&
      SetWeightsSpec(d.(verts := JsonTable(recs)), "", |h.points|, n, h).Ok? &&
      SetWeightsSpec(d.(verts := JsonTable(recs)), "", |h.points|, n, h).value.0 == h.weights
  {
    var n := |h.influences|;
    var d := HandlerData(h.inputGeometry, NoneSlots(n), map[]);
    ExportFresh(h, d);
    ImportExported(h, d);
  }

  /** `get_weights` on a fresh handler fills every slot and stores one record per vertex. */
  lemma ExportFresh(h: HostMesh, d: HandlerData)
    requires |h.influences| > 0 && LogicalIndexes(h.influences) == Range(|h.influences|)
    requires |h.weights| == |h.points| * |h.influences|
    requires |h.inputPoints| >= |h.points| && |h.normals| >= |h.points|
    requires d == HandlerData(h.inputGeometry, NoneSlots(|h.influences|), map[])
    ensures var n := |h.influences|;
      GetWeightsSpec(d, h.influences, Range(n), h) ==
        (d.(influences := Fill(NoneSlots(n), h.influences),
            verts := Keyed(Records(h.weights, n, Range(n), h.inputPoints, h.normals))), Ok(()))
  {
    var n := |h.influences|;
    var recs := Records(h.weights, n, Range(n), h.inputPoints, h.normals);
    EveryInfluenceInRange(h.influences);
    EveryRecordStored(h, n);
    GetWeightsAllStored(d, h.influences, Range(n), h);
    NoneUnion(Keyed(recs));
  }

  lemma NoneUnion<K, V>(m: map<K, V>)
    ensures map[] + m == m
  {
  }

  /** When every influence fits a slot and every chunk is stored, `get_weights` succeeds. */
  lemma GetWeightsAllStored(d: HandlerData, objs: seq<Influence>, idx: seq<nat>, h: HostMesh)
    requires |objs| > 0 && InRangePrefix(objs, |d.influences|) == |objs|
    requires |Records(h.weights, |objs|, idx, h.inputPoints, h.normals)| == |Chunks(h.weights, |objs|)|
    ensures GetWeightsSpec(d, objs, idx, h) ==
      (d.(influences := Fill(d.influences, objs),
          verts := d.verts + Keyed(Records(h.weights, |objs|, idx, h.inputPoints, h.normals))), Ok(()))
  {
    assert objs[..|objs|] == objs;
  }

  /** Influences whose logical indexes are 0..n-1 all fit n slots. */
  lemma EveryInfluenceInRange(infs: seq<Influence>)
    requires LogicalIndexes(infs) == Range(|infs|)
    ensures InRangePrefix(infs, |infs|) == |infs| && infs[..|infs|] == infs
  {
    assert forall k :: 0 <= k < |infs| ==> infs[k].logicalIndex == LogicalIndexes(infs)[k];
    InRangePrefixAll(infs, |infs|);
  }

  /** A full weight list with enough positions and normals gives a record per chunk. */
  lemma EveryRecordStored(h: HostMesh, n: nat)
    requires n > 0 && |h.weights| == |h.points| * n
    requires |h.inputPoints| >= |h.points| && |h.normals| >= |h.points|
    ensures |Records(h.weights, n, Range(n), h.inputPoints, h.normals)| == |Chunks(h.weights, n)|
  {
    ChunksCount(h.weights, n, |h.points|);
  }

  lemma {:induction false} InRangePrefixAll(infs: seq<Influence>, n: nat)
    requires forall k :: 0 <= k < |infs| ==> infs[k].logicalIndex < n
    ensures InRangePrefix(infs, n) == |infs|
    decreases |infs|
  {
    if infs != [] {
      InRangePrefixAll(infs[1..], n);
    }
  }

  /** Importing the exported records, once through JSON, in point order rebuilds the weights. */
  lemma ImportExported(h: HostMesh, d: HandlerData)
    requires |h.influences| > 0
    requires |h.weights| == |h.points| * |h.influences|
    requires |h.inputPoints| >= |h.points| && |h.normals| >= |h.points|
    ensures var n := |h.influences|;
      var table := JsonTable(Records(h.weights, n, Range(n), h.inputPoints, h.normals));
      SetWeightsSpec(d.(verts := table), "", |h.points|, n, h).Ok? &&
      SetWeightsSpec(d.(verts := table), "", |h.points|, n, h).value.0 == h.weights
  {
    var n, nv, w := |h.influences|, |h.points|, h.weights;
    var recs := Records(w, n, Range(n), h.inputPoints, h.normals);
    var table := JsonTable(recs);
    ChunksCount(w, n, nv);
    JsonTableSize(recs);
    assert |table| == nv;
    assert RowSources(table, "", nv, h) == Ok(Range(nv));
    ExportedRowsImport(w, n, h);
    FlattenChunks(w, n);
  }

  lemma ExportedRowsImport(w: seq<Weight>, n: nat, h: HostMesh)
    requires n > 0 && |w| == |h.points| * n
    requires |h.inputPoints| >= |h.points| && |h.normals| >= |h.points|
    ensures ImportRows(JsonTable(Records(w, n, Range(n), h.inputPoints, h.normals)), Range(|h.points|), n) == Ok(Chunks(w, n))
  {
    var nv := |h.points|;
    var table := JsonTable(Records(w, n, Range(n), h.inputPoints, h.normals));
    var sources, rows := Range(nv), Chunks(w, n);
    ChunksCount(w, n, nv);
    forall i | 0 <= i < |sources| ensures ImportRow(table, sources[i], n) == Ok(rows[i]) {
      ExportedRowImports(w, n, h, i);
    }
    ImportRowsAll(table, sources, n, rows);
  }

  /** Rows that each rebuild make the whole import succeed with exactly those rows. */
  lemma {:induction false} ImportRowsAll(verts: map<Key, VertexRecord>, sources: seq<nat>, width: nat, rows: seq<seq<Weight>>)
    requires |rows| == |sources|
    requires forall i :: 0 <= i < |sources| ==> ImportRow(verts, sources[i], width) == Ok(rows[i])
    ensures ImportRows(verts, sources, width) == Ok(rows)
    decreases |sources|
  {
    if sources != [] {
      var k := |sources| - 1;
      ImportRowsAll(verts, sources[..k], width, rows[..k]);
      assert rows == rows[..k] + [rows[k]];
    }
  }

  // ---------------------------------------------------------------------------
  // the blind-data id of a bake

  /** The local time a snapshot id is made from. */
  datatype Stamp = Stamp(month: nat, day: nat, hour: nat, minute: nat, second: nat)

  predicate ValidStamp(t: Stamp)
  {
    1 <= t.month <= 12 && 1 <= t.day <= 31 && t.hour < 24 && t.minute < 60 && t.second < 60
  }

  /** A field as `strftime` prints it: two digits, zero-padded. */
  function Pad2(n: nat): (s: string)
    requires n < 100
    ensures |s| == 2 && AllDigits(s) && DigitsValue(s) == n
  {
    var s := [DigitChar(n / 10), DigitChar(n % 10)];
    assert s[..1] == [s[0]] && [s[0]][..0] == [];
    assert DigitsValue(s[..1]) == n / 10;
    s
  }

  /** `now.strftime("%m%d%H%M%S")`. */
  function StampText(t: Stamp): (s: string)
    requires ValidStamp(t)
    ensures |s| == 10 && AllDigits(s)
  {
    Pad2(t.month) + Pad2(t.day) + Pad2(t.hour) + Pad2(t.minute) + Pad2(t.second)
  }

  /** The blind-data id `bake` writes under: the current year, or `int()` of the time stamp for a snapshot. */
  function BakeId(createSnapshot: bool, year: int, now: Stamp): int
    requires ValidStamp(now)
  {
    if createSnapshot then DigitsValue(StampText(now)) else year
  }

  /** Reading digits after other digits shifts the first ones up by as many places. */
  lemma {:induction false} DigitsValueAppend(a: string, b: string)
    requires AllDigits(a) && AllDigits(b)
    ensures AllDigits(a + b)
    ensures DigitsValue(a + b) == DigitsValue(a) * Pow10(|b|) + DigitsValue(b)
    decreases |b|
  {
    if b == [] {
      assert a + b == a;
    } else {
      var init := b[..|b| - 1];
      var d := b[|b| - 1] as int - '0' as int;
      assert (a + b)[..|a + b| - 1] == a + init;
      DigitsValueAppend(a, init);
      assert DigitsValue(a + b) == DigitsValue(a + init) * 10 + d;
      assert DigitsValue(b) == DigitsValue(init) * 10 + d;
      Regroup(DigitsValue(a), Pow10(|init|), DigitsValue(init), d);
    }
  }

  /** The arithmetic of that step: shifting a sum up a place shifts both of its parts. */
  lemma Regroup(x: int, p: int, y: int, d: int)
    ensures (x * p + y) * 10 + d == x * (p * 10) + (y * 10 + d)
  {
    calc {
      (x * p + y) * 10 + d;
      x * p * 10 + y * 10 + d;
      x * (p * 10) + (y * 10 + d);
    }
  }

  /** Two more digits after some digits: the value so far moves up two places. */
  lemma Shift2(a: string, n: nat)
    requires AllDigits(a) && n < 100
    ensures AllDigits(a + Pad2(n)) && DigitsValue(a + Pad2(n)) == DigitsValue(a) * 100 + n
  {
    DigitsValueAppend(a, Pad2(n));
    assert Pow10(2) == 100;
  }

  /** The stamp's number is its fields written side by side in base 100. */
  lemma StampValue(t: Stamp)
    requires ValidStamp(t)
    ensures DigitsValue(StampText(t)) == (((t.month * 100 + t.day) * 100 + t.hour) * 100 + t.minute) * 100 + t.second
  {
    var a := Pad2(t.month);
    Shift2(a, t.day);
    Shift2(a + Pad2(t.day), t.hour);
    Shift2(a + Pad2(t.day) + Pad2(t.hour), t.minute);
    Shift2(a + Pad2(t.day) + Pad2(t.hour) + Pad2(t.minute), t.second);
  }

  /**
   * A snapshot id has nine or ten digits, so the snapshot listing keeps it,
   * while a four-digit year id is left out; and the time it was taken can be
   * read back from it, two digits per field.
   */
  lemma SnapshotIds(t: Stamp, year: int)
    requires ValidStamp(t)
    ensures IsSnapshotId(BakeId(true, year, t))
    ensures 1000 <= year <= 9999 ==> !IsSnapshotId(BakeId(false, year, t))
    ensures var id := BakeId(true, year, t);
      id / 100000000 == t.month && id / 1000000 % 100 == t.day && id / 10000 % 100 == t.hour &&
      id / 100 % 100 == t.minute && id % 100 == t.second
  {
    StampValue(t);
    var id := BakeId(true, year, t);
    SnapshotIdFilter(id);
    SnapshotIdFilter(year);
    var (mo, d, h, mi, s) := (t.month, t.day, t.hour, t.minute, t.second);
    var md, mdh, mdhm := mo * 100 + d, (mo * 100 + d) * 100 + h, ((mo * 100 + d) * 100 + h) * 100 + mi;
    assert id == mdhm * 100 + s;
    assert id / 100000000 == mo by {
      DivMod(id, mo, d * 1000000 + h * 10000 + mi * 100 + s, 100000000);
    }
    assert id / 1000000 % 100 == d by {
      DivMod(id, md, h * 10000 + mi * 100 + s, 1000000);
      DivMod(md, mo, d, 100);
    }
    assert id / 10000 % 100 == h by {
      DivMod(id, mdh, mi * 100 + s, 10000);
      DivMod(mdh, md, h, 100);
    }
    assert id / 100 % 100 == mi && id % 100 == s by {
      DivMod(id, mdhm, s, 100);
      DivMod(mdhm, mdh, mi, 100);
    }
  }

  /** Division by b of q * b + r with r below b gives q, remainder r. */
  lemma DivMod(x: int, q: int, r: int, b: int)
    requires b > 0 && 0 <= r < b && x == q * b + r
    ensures x / b == q && x % b == r
  {
    var q2, r2 := x / b, x % b;
    if q2 < q {
      MulAtLeast(q - q2, b);
    } else if q2 > q {
      MulAtLeast(q2 - q, b);
    }
  }

  lemma {:induction false} MulAtLeast(a: int, b: int)
    requires a >= 1 && b > 0
    ensures a * b >= b
    decreases a
  {
    if a > 1 {
      MulAtLeast(a - 1, b);
      assert a * b == (a - 1) * b + b;
    }
  }

  // ---------------------------------------------------------------------------
  // baking

  /**
   * The entry baked for one existing weight plug of a vertex: the plug's
   * logical index goes through `influence_indexes` to an influence object,
   * whose partial path is the name; either index can be out of range.
   */
  function BakeEntry(p: WeightPair, idx: seq<nat>, objs: seq<Influence>): Result<Entry>
  {
    if p.influence >= |idx| then Err(MissingColumn(p.influence))
    else if idx[p.influence] >= |objs| then Err(MissingColumn(idx[p.influence]))
    else Ok(Entry(objs[idx[p.influence]].partialPath, p.value))
  }

  /** The entries of a vertex's plugs, in plug order; the first that fails decides the error. */
  function BakeEntries(plugs: seq<WeightPair>, idx: seq<nat>, objs: seq<Influence>): (r: Result<seq<Entry>>)
    ensures r.Ok? <==> forall k :: 0 <= k < |plugs| ==> BakeEntry(plugs[k], idx, objs).Ok?
    ensures r.Ok? ==> |r.value| == |plugs| && forall k :: 0 <= k < |plugs| ==> BakeEntry(plugs[k], idx, objs) == Ok(r.value[k])
    decreases |plugs|
  {
    if plugs == [] then Ok([])
    else
      match BakeEntries(plugs[..|plugs| - 1], idx, objs)
      case Err(e) => Err(e)
      case Ok(es) =>
        match BakeEntry(plugs[|plugs| - 1], idx, objs)
        case Err(e) => Err(e)
        case Ok(x) => Ok(es + [x])
  }

  /** The existing `(logical index, weight)` plugs of vertex v: none for a vertex the plug array does not reach. */
  function PlugsOf(h: HostMesh, v: nat): seq<WeightPair>
  {
    if v < |h.plugEntries| then h.plugEntries[v] else []
  }

  /** The string baked for one vertex. */
  function BakeText(plugs: seq<WeightPair>, idx: seq<nat>, objs: seq<Influence>): Result<string>
  {
    match BakeEntries(plugs, idx, objs)
    case Err(e) => Err(e)
    case Ok(es) => Ok(Encode(es))
  }

  /** The strings baked for vertices 0 to count - 1; the first vertex that fails decides the error. */
  function BakeTexts(h: HostMesh, count: nat, idx: seq<nat>, objs: seq<Influence>): (r: Result<seq<string>>)
    ensures r.Ok? <==> forall v :: 0 <= v < count ==> BakeText(PlugsOf(h, v), idx, objs).Ok?
    ensures r.Ok? ==> |r.value| == count && forall v :: 0 <= v < count ==> BakeText(PlugsOf(h, v), idx, objs) == Ok(r.value[v])
  {
    Collect(VertexTexts(h, count, idx, objs))
  }

  function VertexTexts(h: HostMesh, count: nat, idx: seq<nat>, objs: seq<Influence>): (r: seq<Result<string>>)
    ensures |r| == count && forall v :: 0 <= v < count ==> r[v] == BakeText(PlugsOf(h, v), idx, objs)
  {
    seq(count, v requires 0 <= v => BakeText(PlugsOf(h, v), idx, objs))
  }

  /** The strings stored under a blind-data type, by vertex. */
  function StoreOf(h: HostMesh, id: int): map<nat, string>
  {
    if id in h.blindData then h.blindData[id] else map[]
  }

  /** The host after `bake` wrote the strings of vertices 0 to count - 1 under the id, registering the type if needed. */
  function BakeSpec(h: HostMesh, count: nat, idx: seq<nat>, objs: seq<Influence>, id: int): Result<HostMesh>
  {
    match BakeTexts(h, count, idx, objs)
    case Err(e) => Err(e)
    case Ok(texts) => Ok(Registered(h, id, count, texts))
  }

  /** The host once the type `id` exists and the strings are written for vertices 0 to count - 1. */
  function Registered(h: HostMesh, id: int, count: nat, texts: seq<string>): HostMesh
    requires |texts| == count
  {
    h.(blindTypes := h.blindTypes + {id},
       blindData := h.blindData[id := WriteStrings(StoreOf(h, id), Range(count), texts)])
  }

  /** One vertex's string: `name:weight|` for each existing plug, in plug order. */
  method BakeVertexString(plugs: seq<WeightPair>, idx: seq<nat>, objs: seq<Influence>) returns (r: Result<string>)
    ensures r == BakeText(plugs, idx, objs)
  {
    var text := "";
    for k := 0 to |plugs|
      invariant BakeEntries(plugs[..k], idx, objs).Ok?
      invariant text == Encode(BakeEntries(plugs[..k], idx, objs).value)
    {
      var j := plugs[k].influence;
      if j >= |idx| || idx[j] >= |objs| {
        BakeEntriesFail(plugs, k, idx, objs);
        return Err(if j >= |idx| then MissingColumn(j) else MissingColumn(idx[j]));
      }
      ghost var es := BakeEntries(plugs[..k], idx, objs).value;
      ghost var e := Entry(objs[idx[j]].partialPath, plugs[k].value);
      BakeEntriesStep(plugs, k, idx, objs);
      EncodeAppend(es, e);
      var piece := objs[idx[j]].partialPath + ":" + ShowNat(plugs[k].value);
      assert piece == Piece(e);
      text := text + piece + "|";
    }
    assert plugs[..|plugs|] == plugs;
    return Ok(text);
  }

  /** One more plug that can be named adds its entry at the end. */
  lemma BakeEntriesStep(plugs: seq<WeightPair>, k: nat, idx: seq<nat>, objs: seq<Influence>)
    requires k < |plugs| && BakeEntries(plugs[..k], idx, objs).Ok? && BakeEntry(plugs[k], idx, objs).Ok?
    ensures BakeEntries(plugs[..k + 1], idx, objs) ==
      Ok(BakeEntries(plugs[..k], idx, objs).value + [BakeEntry(plugs[k], idx, objs).value])
  {
    assert plugs[..k + 1][..k] == plugs[..k];
  }

  /** The first plug that cannot be named decides the error. */
  lemma {:induction false} BakeEntriesFail(plugs: seq<WeightPair>, k: nat, idx: seq<nat>, objs: seq<Influence>)
    requires k < |plugs| && BakeEntry(plugs[k], idx, objs).Err? && BakeEntries(plugs[..k], idx, objs).Ok?
    ensures BakeEntries(plugs, idx, objs) == Err(BakeEntry(plugs[k], idx, objs).error)
    decreases |plugs|
  {
    if |plugs| - 1 > k {
      var init := plugs[..|plugs| - 1];
      assert init[..k] == plugs[..k];
      BakeEntriesFail(init, k, idx, objs);
    } else {
      assert plugs[..|plugs| - 1] == plugs[..k];
    }
  }

  /** `data_to_set`: the string of every vertex from 0 to count - 1. */
  method BakeVertexStrings(h: HostMesh, count: nat, idx: seq<nat>, objs: seq<Influence>) returns (r: Result<seq<string>>)
    ensures r == BakeTexts(h, count, idx, objs)
  {
    ghost var all := VertexTexts(h, count, idx, objs);
    var texts: seq<string> := [];
    for v := 0 to count
      invariant Collect(all[..v]) == Ok(texts)
    {
      var t := BakeVertexString(PlugsOf(h, v), idx, objs);
      if t.Err? {
        CollectFail(all, v);
        return Err(t.error);
      }
      CollectStep(all, v, texts);
      texts := texts + [t.value];
    }
    assert all[..count] == all;
    return Ok(texts);
  }

  /** The blind-data half of `bake`: build every vertex string, register the type when it is new, write the strings. */
  method BakeOnto(h: HostMesh, count: nat, idx: seq<nat>, objs: seq<Influence>, id: int) returns (r: Result<HostMesh>)
    ensures r == BakeSpec(h, count, idx, objs, id)
  {
    var texts := BakeVertexStrings(h, count, idx, objs);
    if texts.Err? {
      return Err(texts.error);
    }
    var types := h.blindTypes;
    if id !in types {
      types := types + {id};
    } else {
      assert types + {id} == types;
    }
    return Ok(h.(blindTypes := types, blindData := h.blindData[id := WriteStrings(StoreOf(h, id), Range(count), texts.value)]));
  }

  // ---------------------------------------------------------------------------
  // unbake

  /** The snapshot id `unbake` reads: the one given, unless none (or zero) was given, then the current year. */
  function UnbakeId(snapshotId: Option<int>, year: int): int
  {
    if snapshotId.Some? && snapshotId.value != 0 then snapshotId.value else year
  }

  /** The name `unbake` files an influence under: the last `|`-separated part of its full path. */
  function ShortName(inf: Influence): Name
  {
    LastPiece(inf.fullPath, '|')
  }

  /** `influences_ids`: each short name mapped to the position of the last influence that has it. */
  function ShortIds(infs: seq<Influence>): (r: map<Name, nat>)
    ensures forall k :: 0 <= k < |infs| ==> ShortName(infs[k]) in r && r[ShortName(infs[k])] >= k
    ensures forall x :: x in r ==> r[x] < |infs| && ShortName(infs[r[x]]) == x
    decreases |infs|
  {
    if infs == [] then map[]
    else
      var prev := ShortIds(infs[..|infs| - 1]);
      ShortIdsStep(infs, infs[..|infs| - 1], prev);
      prev[ShortName(infs[|infs| - 1]) := |infs| - 1]
  }

  /** Filing the last influence under its short name extends the map of the others. */
  lemma ShortIdsStep(infs: seq<Influence>, init: seq<Influence>, prev: map<Name, nat>)
    requires |infs| > 0 && init == infs[..|infs| - 1]
    requires forall k :: 0 <= k < |init| ==> ShortName(init[k]) in prev && prev[ShortName(init[k])] >= k
    requires forall x :: x in prev ==> prev[x] < |init| && ShortName(init[prev[x]]) == x
    ensures var r := prev[ShortName(infs[|infs| - 1]) := |infs| - 1];
      (forall k :: 0 <= k < |infs| ==> ShortName(infs[k]) in r && r[ShortName(infs[k])] >= k) &&
      (forall x :: x in r ==> r[x] < |infs| && ShortName(infs[r[x]]) == x)
  {
    assert forall k :: 0 <= k < |init| ==> init[k] == infs[k];
  }

  /**
   * One `name:weight` piece as skinning.py's `unbake` reads it: the weight is
   * read first, then the name must be a current short name.
   * `SkinClusterManager.ReadPiece` is the newer manager's loop body, which
   * checks the name before the weight.
   */
  function ReadPiece(piece: string, ids: map<Name, nat>): Result<WeightPair>
  {
    match ParsePiece(piece)
    case Err(e) => Err(e)
    case Ok(e) => if e.name in ids then Ok(WeightPair(ids[e.name], e.value)) else Err(MissingInfluence(e.name))
  }

  function PieceReads(pieces: seq<string>, ids: map<Name, nat>): (r: seq<Result<WeightPair>>)
    ensures |r| == |pieces| && forall k :: 0 <= k < |pieces| ==> r[k] == ReadPiece(pieces[k], ids)
  {
    seq(|pieces|, k requires 0 <= k < |pieces| => ReadPiece(pieces[k], ids))
  }

  /**
   * The row `unbake` builds from one vertex string: `width` zeros, and each
   * non-empty piece's weight written into the column of its name, pieces in order.
   */
  function UnbakeText(text: string, ids: map<Name, nat>, width: nat): (r: Result<seq<Weight>>)
    requires forall x :: x in ids ==> ids[x] < width
    ensures r.Ok? ==> |r.value| == width
  {
    match Collect(PieceReads(NonEmpty(Split(text, '|')), ids))
    case Err(e) => Err(e)
    case Ok(ps) => Ok(Place(Zeros(width), ps))
  }

  /** A vertex string reads into a row exactly when every piece parses and names a current short name. */
  lemma UnbakeTextOk(text: string, ids: map<Name, nat>, width: nat)
    requires forall x :: x in ids ==> ids[x] < width
    ensures UnbakeText(text, ids, width).Ok? <==>
      ParseNonEmpty(text).Ok? && forall e :: e in ParseNonEmpty(text).value ==> e.name in ids
  {
    var pieces := NonEmpty(Split(text, '|'));
    var pieceReads := PieceReads(pieces, ids);
    var parsed := ParseAll(pieces);
    if UnbakeText(text, ids, width).Ok? {
      assert parsed.Ok? by {
        forall k | 0 <= k < |pieces| ensures ParsePiece(pieces[k]).Ok? {
          assert pieceReads[k].Ok?;
        }
      }
      forall e | e in parsed.value ensures e.name in ids {
        var k :| 0 <= k < |parsed.value| && parsed.value[k] == e;
        assert pieceReads[k].Ok?;
      }
    }
    if parsed.Ok? && forall e :: e in parsed.value ==> e.name in ids {
      forall k | 0 <= k < |pieces| ensures pieceReads[k].Ok? {
        assert parsed.value[k] in parsed.value;
      }
    }
  }

  /** The row of vertex v, or `MissingVertex` when the vertex holds no string. */
  function VertexRow(store: map<nat, string>, v: nat, ids: map<Name, nat>, width: nat): Result<seq<Weight>>
    requires forall x :: x in ids ==> ids[x] < width
  {
    if v in store then UnbakeText(store[v], ids, width) else Err(MissingVertex(v))
  }

  function VertexRows(store: map<nat, string>, count: nat, ids: map<Name, nat>, width: nat): (r: seq<Result<seq<Weight>>>)
    requires forall x :: x in ids ==> ids[x] < width
    ensures |r| == count && forall v :: 0 <= v < count ==> r[v] == VertexRow(store, v, ids, width)
  {
    seq(count, v requires 0 <= v => VertexRow(store, v, ids, width))
  }

  /** The rows of vertices 0 to count - 1, each `width` long; the first vertex that fails decides the error. */
  function UnbakeRows(store: map<nat, string>, count: nat, ids: map<Name, nat>, width: nat): (r: Result<seq<seq<Weight>>>)
    requires forall x :: x in ids ==> ids[x] < width
    ensures r.Ok? ==> |r.value| == count && Uniform(r.value, width)
  {
    Collect(VertexRows(store, count, ids, width))
  }

  /** The strings `getStringBlindData` hands back for the type `id`, one per vertex that holds one. */
  function StoredTexts(h: HostMesh, id: int): seq<string>
  {
    StoredDescending(StoreOf(h, id), |h.points|)
  }

  /** What `unbake` reads from the host for the type `id`, onto a skinCluster with the created influences. */
  function Unbaked(h: HostMesh, id: int, created: seq<Influence>): Result<seq<seq<Weight>>>
  {
    UnbakeRows(StoreOf(h, id), |StoredTexts(h, id)|, ShortIds(created), |created|)
  }

  /** The influences `unbake` asks the new skinCluster for: every name a stored string mentions, except the empty one. */
  function Requested(texts: seq<string>): set<Name>
    decreases |texts|
  {
    if texts == [] then {}
    else Requested(texts[..|texts| - 1]) + Mentioned(texts[|texts| - 1])
  }

  /** `filter(None, [x.split(":")[0] for x in text.split("|")])` as a set: the non-empty names one string mentions. */
  function Mentioned(text: string): set<Name>
  {
    var joints := NamesIn(text);
    set x | x in joints && x != ""
  }

  /** A name is requested exactly when it is not empty and some stored string mentions it. */
  lemma {:induction false} RequestedNames(texts: seq<string>, x: Name)
    ensures x in Requested(texts) <==> x != "" && exists t :: t in texts && x in NamesIn(t)
    decreases |texts|
  {
    if texts != [] {
      var init, last := texts[..|texts| - 1], texts[|texts| - 1];
      RequestedNames(init, x);
      assert texts == init + [last];
      if x != "" && x !in NamesIn(last) && exists t :: t in texts && x in NamesIn(t) {
        var t :| t in texts && x in NamesIn(t);
        assert t in init;
      }
    }
  }

  /** `influences_ids`, built one influence at a time. */
  method BuildShortIds(infs: seq<Influence>) returns (ids: map<Name, nat>)
    ensures ids == ShortIds(infs)
  {
    ids := map[];
    for k := 0 to |infs|
      invariant ids == ShortIds(infs[..k])
    {
      assert infs[..k + 1][..k] == infs[..k];
      ids := ids[LastPiece(infs[k].fullPath, '|') := k];
    }
    assert infs[..|infs|] == infs;
  }

  /** The per-piece loop of `unbake` for one vertex string. */
  method ReadVertex(text: string, ids: map<Name, nat>, width: nat) returns (r: Result<seq<Weight>>)
    requires forall x :: x in ids ==> ids[x] < width
    ensures r == UnbakeText(text, ids, width)
  {
    var sets := NonEmpty(Split(text, '|'));
    ghost var pieceReads := PieceReads(sets, ids);
    ghost var ps: seq<WeightPair> := [];
    var row := Zeros(width);
    for k := 0 to |sets|
      invariant Collect(pieceReads[..k]) == Ok(ps)
      invariant InRange(ps, width)
      invariant row == Place(Zeros(width), ps)
    {
      var p := ReadWeightPair(sets[k], ids);
      if p.Err? {
        CollectFail(pieceReads, k);
        return Err(p.error);
      }
      CollectStep(pieceReads, k, ps);
      PlaceAppend(Zeros(width), ps, p.value);
      ps := ps + [p.value];
      row := row[p.value.influence := p.value.value];
    }
    assert pieceReads[..|sets|] == pieceReads;
    return Ok(row);
  }

  /** One `name:weight` piece read into its column: the weight is parsed first, then the name looked up. */
  method ReadWeightPair(piece: string, ids: map<Name, nat>) returns (r: Result<WeightPair>)
    ensures r == ReadPiece(piece, ids)
  {
    var parts := Split(piece, ':');
    if |parts| < 2 || ParseNat(parts[1]).None? {
      return Err(Malformed(piece));
    }
    var joint := parts[0];
    if joint !in ids {
      return Err(MissingInfluence(joint));
    }
    return Ok(WeightPair(ids[joint], ParseNat(parts[1]).value));
  }

  /** The vertex loop of `unbake`: every vertex's row, appended to one flat list of weights. */
  method UnbakeAll(store: map<nat, string>, count: nat, ids: map<Name, nat>, width: nat) returns (r: Result<seq<Weight>>)
    requires forall x :: x in ids ==> ids[x] < width
    ensures UnbakeRows(store, count, ids, width).Err? ==> r == Err(UnbakeRows(store, count, ids, width).error)
    ensures UnbakeRows(store, count, ids, width).Ok? ==> r == Ok(Flatten(UnbakeRows(store, count, ids, width).value))
  {
    ghost var all := VertexRows(store, count, ids, width);
    ghost var rows: seq<seq<Weight>> := [];
    var weights: seq<Weight> := [];
    for v := 0 to count
      invariant Collect(all[..v]) == Ok(rows)
      invariant weights == Flatten(rows)
    {
      var row := ReadStoredVertex(store, v, ids, width);
      if row.Err? {
        CollectFail(all, v);
        return Err(row.error);
      }
      CollectStep(all, v, rows);
      FlattenAppend(rows, row.value);
      rows := rows + [row.value];
      weights := weights + row.value;
    }
    assert all[..count] == all;
    return Ok(weights);
  }

  /** One pass of the vertex loop of `unbake`: the vertex's string read into a row, or the vertex is missing. */
  method ReadStoredVertex(store: map<nat, string>, v: nat, ids: map<Name, nat>, width: nat) returns (r: Result<seq<Weight>>)
    requires forall x :: x in ids ==> ids[x] < width
    ensures r == VertexRow(store, v, ids, width)
  {
    if v !in store {
      return Err(MissingVertex(v));
    }
    r := ReadVertex(store[v], ids, width);
  }

  /** The influence names of the stored strings, gathered string by string. */
  method GatherNames(texts: seq<string>) returns (names: set<Name>)
    ensures names == Requested(texts)
  {
    names := {};
    for i := 0 to |texts|
      invariant names == Requested(texts[..i])
    {
      assert texts[..i + 1][..i] == texts[..i];
      names := names + Mentioned(texts[i]);
    }
    assert texts[..|texts|] == texts;
  }

  // ---------------------------------------------------------------------------
  // bake, then unbake

  /** No two influences share a short name, so `influences_ids` loses none of them. */
  predicate DistinctShortNames(infs: seq<Influence>)
  {
    forall i, j :: 0 <= i < j < |infs| ==> ShortName(infs[i]) != ShortName(infs[j])
  }

  function OrZero(w: Option<Weight>): Weight
  {
    if w.Some? then w.value else 0
  }

  /** Entries read through a name map put, into the column of a name, the weight of the last entry with that name. */
  lemma {:induction false} LastAtOfIds(es: seq<Entry>, ps: seq<WeightPair>, ids: map<Name, nat>, name: Name)
    requires |ps| == |es| && name in ids
    requires forall k :: 0 <= k < |es| ==> es[k].name in ids && ps[k] == WeightPair(ids[es[k].name], es[k].value)
    requires forall x :: x in ids && ids[x] == ids[name] ==> x == name
    ensures LastAt(ps, ids[name]) == Lookup(es, name)
    decreases |es|
  {
    if es != [] {
      var m := |es|;
      LastAtOfIds(es[..m - 1], ps[..m - 1], ids, name);
      assert ps == ps[..m - 1] + [ps[m - 1]];
      LastAtAppend(ps[..m - 1], ps[m - 1], ids[name]);
    }
  }

  /** With distinct short names, each influence's short name maps back to its own position. */
  lemma ShortIdsOwn(created: seq<Influence>, c: nat)
    requires DistinctShortNames(created) && c < |created|
    ensures ShortIds(created)[ShortName(created[c])] == c
    ensures forall x :: x in ShortIds(created) && ShortIds(created)[x] == c ==> x == ShortName(created[c])
  {
  }

  /** Pieces that parse to entries whose names are all mapped read to those entries' columns and weights. */
  lemma ReadParsedPieces(pieces: seq<string>, es: seq<Entry>, ids: map<Name, nat>)
    requires ParseAll(pieces) == Ok(es)
    requires forall k :: 0 <= k < |es| ==> es[k].name in ids
    ensures Collect(PieceReads(pieces, ids)).Ok?
    ensures forall k :: 0 <= k < |es| ==> Collect(PieceReads(pieces, ids)).value[k] == WeightPair(ids[es[k].name], es[k].value)
  {
    var pr := PieceReads(pieces, ids);
    forall k | 0 <= k < |es| ensures pr[k] == Ok(WeightPair(ids[es[k].name], es[k].value)) {
      assert ParsePiece(pieces[k]) == Ok(es[k]);
    }
  }

  /**
   * A string that parses to entries whose names are all short names of
   * influences with distinct short names reads back into a row whose column
   * for each influence holds the weight last given under its short name, or zero.
   */
  lemma UnbakeParsed(text: string, es: seq<Entry>, created: seq<Influence>)
    requires ParseNonEmpty(text) == Ok(es)
    requires forall k :: 0 <= k < |es| ==> es[k].name in ShortIds(created)
    requires DistinctShortNames(created)
    ensures UnbakeText(text, ShortIds(created), |created|).Ok?
    ensures forall c :: 0 <= c < |created| ==>
      UnbakeText(text, ShortIds(created), |created|).value[c] == OrZero(Lookup(es, ShortName(created[c])))
  {
    ShortIdsColumns(created);
    UnbakeByColumn(text, es, ShortIds(created), ShortNames(created));
  }

  /**
   * The short name of each influence object, in order, as skinning.py's
   * `unbake` keys it; `SkinClusterManager.ShortNames` is the same split on the
   * newer manager's stored influence paths.
   */
  function ShortNames(infs: seq<Influence>): (r: seq<Name>)
    ensures |r| == |infs| && forall c :: 0 <= c < |infs| ==> r[c] == ShortName(infs[c])
  {
    seq(|infs|, c requires 0 <= c < |infs| => ShortName(infs[c]))
  }

  /** With distinct short names, `influences_ids` and the list of short names are inverse to each other. */
  lemma ShortIdsColumns(created: seq<Influence>)
    requires DistinctShortNames(created)
    ensures forall x :: x in ShortIds(created) ==>
      ShortIds(created)[x] < |created| && ShortNames(created)[ShortIds(created)[x]] == x
    ensures forall c :: 0 <= c < |created| ==>
      ShortNames(created)[c] in ShortIds(created) && ShortIds(created)[ShortNames(created)[c]] == c
  {
    var ids, names := ShortIds(created), ShortNames(created);
    forall c | 0 <= c < |created| ensures names[c] in ids && ids[names[c]] == c {
      ShortIdsOwn(created, c);
    }
  }

  /**
   * The same over any map from names to columns that gives column c to the
   * c-th name and to nothing else.
   */
  lemma UnbakeByColumn(text: string, es: seq<Entry>, ids: map<Name, nat>, names: seq<Name>)
    requires ParseNonEmpty(text) == Ok(es)
    requires forall k :: 0 <= k < |es| ==> es[k].name in ids
    requires forall x :: x in ids ==> ids[x] < |names| && names[ids[x]] == x
    requires forall c :: 0 <= c < |names| ==> names[c] in ids && ids[names[c]] == c
    ensures UnbakeText(text, ids, |names|).Ok?
    ensures forall c :: 0 <= c < |names| ==>
      UnbakeText(text, ids, |names|).value[c] == OrZero(Lookup(es, names[c]))
  {
    UnbakeTextParsed(text, es, ids, |names|);
    var ps := EntryPairs(es, ids);
    forall c | 0 <= c < |names| ensures Place(Zeros(|names|), ps)[c] == OrZero(Lookup(es, names[c])) {
      LastAtOfIds(es, ps, ids, names[c]);
    }
  }

  /** The pair each parsed entry reads as: the id of its name, and its weight. */
  function EntryPairs(es: seq<Entry>, ids: map<Name, nat>): (r: seq<WeightPair>)
    requires forall k :: 0 <= k < |es| ==> es[k].name in ids
    ensures |r| == |es| && forall k :: 0 <= k < |es| ==> r[k] == WeightPair(ids[es[k].name], es[k].value)
  {
    seq(|es|, k requires 0 <= k < |es| => WeightPair(ids[es[k].name], es[k].value))
  }

  /** A string whose pieces parse to entries of known names reads into those entries' pairs placed on zeros. */
  lemma UnbakeTextParsed(text: string, es: seq<Entry>, ids: map<Name, nat>, width: nat)
    requires ParseNonEmpty(text) == Ok(es)
    requires forall k :: 0 <= k < |es| ==> es[k].name in ids
    requires forall x :: x in ids ==> ids[x] < width
    ensures UnbakeText(text, ids, width) == Ok(Place(Zeros(width), EntryPairs(es, ids)))
    ensures InRange(EntryPairs(es, ids), width)
  {
    var pieces := NonEmpty(Split(text, '|'));
    ReadParsedPieces(pieces, es, ids);
    var ps := Collect(PieceReads(pieces, ids)).value;
    assert |ps| == |pieces| == |es|;
    assert ps == EntryPairs(es, ids);
  }

  /** A baked string, of names free of both separators, reads back by short name. */
  lemma BakedTextUnbakes(es: seq<Entry>, created: seq<Influence>)
    requires forall k :: 0 <= k < |es| ==> Bakeable(es[k].name) && es[k].name in ShortIds(created)
    requires DistinctShortNames(created)
    ensures UnbakeText(Encode(es), ShortIds(created), |created|).Ok?
    ensures forall c :: 0 <= c < |created| ==>
      UnbakeText(Encode(es), ShortIds(created), |created|).value[c] == OrZero(Lookup(es, ShortName(created[c])))
  {
    ParseEncode(es);
    UnbakeParsed(Encode(es), es, created);
  }

  /** The entries vertex v bakes to, when it bakes. */
  function BakedEntries(h: HostMesh, v: nat, idx: seq<nat>, objs: seq<Influence>): seq<Entry>
  {
    var es := BakeEntries(PlugsOf(h, v), idx, objs);
    if es.Ok? then es.value else []
  }

  /**
   * `bake` onto every vertex, then `unbake` onto influences with distinct short
   * names that cover every baked partial path: every vertex has a row, and in
   * each new influence's column it holds the weight baked under that
   * influence's short name, or zero when none was.
   */
  lemma BakeThenUnbake(h: HostMesh, idx: seq<nat>, objs: seq<Influence>, id: int, created: seq<Influence>)
    requires BakeSpec(h, |h.points|, idx, objs, id).Ok?
    requires forall k :: 0 <= k < |objs| ==> Bakeable(objs[k].partialPath) && objs[k].partialPath in ShortIds(created)
    requires DistinctShortNames(created)
    ensures var u := Unbaked(BakeSpec(h, |h.points|, idx, objs, id).value, id, created);
      u.Ok? && |u.value| == |h.points|
    ensures var u := Unbaked(BakeSpec(h, |h.points|, idx, objs, id).value, id, created);
      forall v, c :: 0 <= v < |h.points| && 0 <= c < |created| ==>
        u.value[v][c] == OrZero(Lookup(BakedEntries(h, v, idx, objs), ShortName(created[c])))
  {
    var n := |h.points|;
    var texts := BakeTexts(h, n, idx, objs).value;
    var h2 := BakeSpec(h, n, idx, objs, id).value;
    var store := StoreOf(h2, id);
    assert store == WriteStrings(StoreOf(h, id), Range(n), texts);
    StoredAfterBake(StoreOf(h, id), texts);
    assert |StoredTexts(h2, id)| == n;
    var ids := ShortIds(created);
    var all := VertexRows(store, n, ids, |created|);
    forall v | 0 <= v < n
      ensures all[v].Ok? && |all[v].value| == |created|
      ensures forall c :: 0 <= c < |created| ==> all[v].value[c] == OrZero(Lookup(BakedEntries(h, v, idx, objs), ShortName(created[c])))
    {
      WriteStringsRange(StoreOf(h, id), texts, v);
      BakedVertexText(h, v, idx, objs, texts);
      NamedByShortNames(BakedEntries(h, v, idx, objs), objs, created);
      BakedTextUnbakes(BakedEntries(h, v, idx, objs), created);
    }
  }

  /** The text baked for vertex v is the encoding of its entries, each named by an influence's partial path. */
  lemma BakedVertexText(h: HostMesh, v: nat, idx: seq<nat>, objs: seq<Influence>, texts: seq<string>)
    requires v < |texts| && BakeText(PlugsOf(h, v), idx, objs) == Ok(texts[v])
    requires forall k :: 0 <= k < |objs| ==> Bakeable(objs[k].partialPath)
    ensures texts[v] == Encode(BakedEntries(h, v, idx, objs))
    ensures forall k :: 0 <= k < |BakedEntries(h, v, idx, objs)| ==>
      Bakeable(BakedEntries(h, v, idx, objs)[k].name) && BakedEntries(h, v, idx, objs)[k].name in PartialPaths(objs)
  {
    var plugs := PlugsOf(h, v);
    var es := BakedEntries(h, v, idx, objs);
    forall k | 0 <= k < |es| ensures Bakeable(es[k].name) && es[k].name in PartialPaths(objs) {
      assert BakeEntry(plugs[k], idx, objs) == Ok(es[k]);
      assert es[k].name == PartialPaths(objs)[idx[plugs[k].influence]];
    }
  }

  /** Entries named by partial paths that are all short names are named by short names. */
  lemma NamedByShortNames(es: seq<Entry>, objs: seq<Influence>, created: seq<Influence>)
    requires forall k :: 0 <= k < |es| ==> es[k].name in PartialPaths(objs)
    requires forall k :: 0 <= k < |objs| ==> objs[k].partialPath in ShortIds(created)
    ensures forall k :: 0 <= k < |es| ==> es[k].name in ShortIds(created)
  {
    forall k | 0 <= k < |es| ensures es[k].name in ShortIds(created) {
      var paths := PartialPaths(objs);
      assert es[k].name in paths;
      var j :| 0 <= j < |paths| && paths[j] == es[k].name;
      assert objs[j].partialPath in ShortIds(created);
    }
  }

  /** The names a baked string mentions are the non-empty names of its entries. */
  lemma MentionedEncode(es: seq<Entry>)
    requires forall k :: 0 <= k < |es| ==> Bakeable(es[k].name)
    ensures forall x :: x in Mentioned(Encode(es)) <==> x != "" && exists k :: 0 <= k < |es| && es[k].name == x
  {
    SplitEncode(es);
    var names := NamesIn(Encode(es));
    var pieces := Split(Encode(es), '|');
    assert pieces == Pieces(es) + [""];
    forall k | 0 <= k < |es| ensures names[k] == es[k].name {
      var e := es[k];
      assert pieces[k] == Piece(e);
      SplitHead(e.name, ':', ShowNat(e.value));
      assert Piece(e) == e.name + [':'] + ShowNat(e.value);
    }
    assert names[|es|] == "";
  }

  /** The non-empty names in lists of entries. */
  function EntryNames(ess: seq<seq<Entry>>): set<Name>
  {
    set v, e | 0 <= v < |ess| && e in ess[v] && e.name != "" :: e.name
  }

  /** The entries `bake` writes for each of the vertices 0 to n - 1. */
  function BakedEntryLists(h: HostMesh, n: nat, idx: seq<nat>, objs: seq<Influence>): (r: seq<seq<Entry>>)
    ensures |r| == n && forall v :: 0 <= v < n ==> r[v] == BakedEntries(h, v, idx, objs)
  {
    seq(n, v requires 0 <= v => BakedEntries(h, v, idx, objs))
  }

  /** The order of the strings does not change which names are requested. */
  lemma RequestedReversed(texts: seq<string>)
    ensures Requested(Reversed(texts)) == Requested(texts)
  {
    var rev := Reversed(texts);
    ReversedWithin(texts);
    ReversedWithin(rev);
    ReversedTwice(texts);
    forall x ensures x in Requested(rev) <==> x in Requested(texts) {
      if x in Requested(rev) {
        RequestedWithin(rev, texts, x);
      }
      if x in Requested(texts) {
        RequestedWithin(texts, rev, x);
      }
    }
  }

  /** Every string of a reversed list is a string of the list. */
  lemma ReversedWithin<T>(s: seq<T>)
    ensures forall t :: t in Reversed(s) ==> t in s
  {
    var rev := Reversed(s);
    forall t | t in rev ensures t in s {
      var i :| 0 <= i < |rev| && rev[i] == t;
      assert s[|s| - 1 - i] == t;
    }
  }

  /** A name requested by some strings is requested by any list holding all of them. */
  lemma RequestedWithin(a: seq<string>, b: seq<string>, x: Name)
    requires forall t :: t in a ==> t in b
    requires x in Requested(a)
    ensures x in Requested(b)
  {
    RequestedNames(a, x);
    var t :| t in a && x in NamesIn(t);
    RequestedNames(b, x);
  }

  /** Strings that each encode a list of entries request exactly the non-empty names of those entries. */
  lemma RequestedEncoded(texts: seq<string>, ess: seq<seq<Entry>>)
    requires |texts| == |ess|
    requires forall v :: 0 <= v < |texts| ==> texts[v] == Encode(ess[v])
    requires forall v, k :: 0 <= v < |ess| && 0 <= k < |ess[v]| ==> Bakeable(ess[v][k].name)
    ensures Requested(texts) == EntryNames(ess)
  {
    forall x ensures x in Requested(texts) <==> x in EntryNames(ess) {
      if x in Requested(texts) {
        RequestedEncodedSound(texts, ess, x);
      }
      if x in EntryNames(ess) {
        RequestedEncodedComplete(texts, ess, x);
      }
    }
  }

  /** A requested name is the name of some encoded entry. */
  lemma RequestedEncodedSound(texts: seq<string>, ess: seq<seq<Entry>>, x: Name)
    requires |texts| == |ess|
    requires forall v :: 0 <= v < |texts| ==> texts[v] == Encode(ess[v])
    requires forall v, k :: 0 <= v < |ess| && 0 <= k < |ess[v]| ==> Bakeable(ess[v][k].name)
    requires x in Requested(texts)
    ensures x in EntryNames(ess)
  {
    RequestedNames(texts, x);
    var t :| t in texts && x in NamesIn(t);
    var v :| 0 <= v < |texts| && texts[v] == t;
    var es := ess[v];
    MentionedEncode(es);
    assert x in Mentioned(t);
    var k :| 0 <= k < |es| && es[k].name == x;
    assert es[k] in es;
  }

  /** The non-empty name of every encoded entry is requested. */
  lemma RequestedEncodedComplete(texts: seq<string>, ess: seq<seq<Entry>>, x: Name)
    requires |texts| == |ess|
    requires forall v :: 0 <= v < |texts| ==> texts[v] == Encode(ess[v])
    requires forall v, k :: 0 <= v < |ess| && 0 <= k < |ess[v]| ==> Bakeable(ess[v][k].name)
    requires x in EntryNames(ess)
    ensures x in Requested(texts)
  {
    var v, e :| 0 <= v < |ess| && e in ess[v] && e.name != "" && e.name == x;
    var es := ess[v];
    MentionedEncode(es);
    var k :| 0 <= k < |es| && es[k] == e;
    assert x in Mentioned(texts[v]);
    assert texts[v] in texts;
    RequestedNames(texts, x);
  }

  /**
   * After a `bake` onto every vertex, the influences `unbake` asks the new
   * skinCluster for are exactly the non-empty partial paths the bake wrote.
   */
  lemma BakeThenUnbakeRequests(h: HostMesh, idx: seq<nat>, objs: seq<Influence>, id: int)
    requires BakeSpec(h, |h.points|, idx, objs, id).Ok?
    requires forall k :: 0 <= k < |objs| ==> Bakeable(objs[k].partialPath)
    ensures Requested(StoredTexts(BakeSpec(h, |h.points|, idx, objs, id).value, id)) ==
      EntryNames(BakedEntryLists(h, |h.points|, idx, objs))
  {
    var n := |h.points|;
    var texts := BakeTexts(h, n, idx, objs).value;
    var h2 := BakeSpec(h, n, idx, objs, id).value;
    assert StoreOf(h2, id) == WriteStrings(StoreOf(h, id), Range(n), texts);
    StoredAfterBake(StoreOf(h, id), texts);
    BakedTextsRequest(h, n, idx, objs, texts);
    RequestedReversed(texts);
  }

  /** The names the baked strings of a whole mesh request are the names of the entries baked. */
  lemma BakedTextsRequest(h: HostMesh, n: nat, idx: seq<nat>, objs: seq<Influence>, texts: seq<string>)
    requires BakeTexts(h, n, idx, objs) == Ok(texts)
    requires forall k :: 0 <= k < |objs| ==> Bakeable(objs[k].partialPath)
    ensures Requested(texts) == EntryNames(BakedEntryLists(h, n, idx, objs))
  {
    var ess := BakedEntryLists(h, n, idx, objs);
    forall v | 0 <= v < n
      ensures texts[v] == Encode(ess[v])
      ensures forall k :: 0 <= k < |ess[v]| ==> Bakeable(ess[v][k].name)
    {
      BakedVertexText(h, v, idx, objs, texts);
    }
    RequestedEncoded(texts, ess);
  }

  class SkinHandler {
    /** `skin_cluster_name`, "" for a handler made only to unbake. */
    var clusterName: Name
    /** `influence_objects`, as the skinCluster reported them when the handler was made. */
    var influenceObjects: seq<Influence>
    /** `influence_indexes`: the logical index of each influence object. */
    var influenceIndexes: seq<nat>
    /** `input_geometry`. */
    var inputGeometry: Name
    /** `number_of_verts`: the vertex count of the mesh when the handler was made. */
    var numberOfVerts: nat
    /** `data`. */
    var data: HandlerData
    /** The host scene as the host API reports it for the handled mesh. */
    var host: HostMesh

    /** The fields the handler caches from the skinCluster. */
    function Handle(): (Name, seq<Influence>, seq<nat>, Name, nat)
      reads this
    {
      (clusterName, influenceObjects, influenceIndexes, inputGeometry, numberOfVerts)
    }

    /** `influences`: the full paths of the influence objects. */
    function Influences(): seq<Name>
      reads this
    {
      FullPaths(influenceObjects)
    }

    /** What `__init__` caches for the skinCluster the host now reports. */
    predicate Initialised(name: Name)
      reads this
    {
      clusterName == name &&
      influenceObjects == host.influences &&
      influenceIndexes == LogicalIndexes(host.influences) &&
      inputGeometry == host.inputGeometry &&
      numberOfVerts == |host.points| &&
      data == HandlerData(host.inputGeometry, NoneSlots(|host.influences|), map[])
    }

    /** With no name the handler caches nothing; otherwise it caches the skinCluster's state. */
    constructor (name: Name, scene: HostMesh)
      ensures host == scene
      ensures name == "" ==> Handle() == ("", [], [], "", 0) && data == HandlerData("", [], map[])
      ensures name != "" ==> Initialised(name)
    {
      clusterName := "";
      influenceObjects := [];
      influenceIndexes := [];
      inputGeometry := "";
      numberOfVerts := 0;
      data := HandlerData("", [], map[]);
      host := scene;
      new;
      if name != "" {
        Init(name);
      }
    }

    /** The body of `__init__` for a named skinCluster. */
    method Init(name: Name)
      modifies this
      ensures host == old(host) && Initialised(name)
    {
      clusterName := name;
      influenceObjects := host.influences;
      influenceIndexes := SetInfluenceIndexes();
      inputGeometry := host.inputGeometry;
      numberOfVerts := |host.points|;
      data := HandlerData(inputGeometry, NoneSlots(|influenceObjects|), map[]);
    }

    /** `_set_influence_indexes`: the logical index of each influence object, in influence-object order. */
    method SetInfluenceIndexes() returns (indexes: seq<nat>)
      ensures indexes == LogicalIndexes(influenceObjects)
    {
      var a := new nat[|influenceObjects|](_ => 0);
      for k := 0 to a.Length
        invariant forall i :: 0 <= i < k ==> a[i] == influenceObjects[i].logicalIndex
      {
        a[k] := influenceObjects[k].logicalIndex;
      }
      indexes := a[..];
    }

    /**
     * `_set_influences`: writes each influence's full path into the slot of
     * its logical index, in influence-object order; the first influence whose
     * index has no slot raises, leaving the slots written before it.
     */
    method SetInfluences() returns (r: Result<()>)
      modifies this
      ensures Handle() == old(Handle()) && host == old(host)
      ensures var k := InRangePrefix(influenceObjects, |old(data.influences)|);
        data == old(data).(influences := Fill(old(data.influences), influenceObjects[..k])) &&
        r == if k == |influenceObjects| then Ok(()) else Err(MissingColumn(influenceObjects[k].logicalIndex))
    {
      var slots;
      slots, r := SetSlots(data.influences, influenceObjects);
      data := data.(influences := slots);
    }

    /** `get_weights`, proved against GetWeightsSpec. */
    method GetWeights() returns (r: Result<()>)
      modifies this
      ensures Handle() == old(Handle()) && host == old(host)
      ensures (data, r) == GetWeightsSpec(old(data), influenceObjects, influenceIndexes, host)
    {
      r := SetInfluences();
      if r.Err? {
        return;
      }
      assert influenceObjects[..|influenceObjects|] == influenceObjects;
      var n := |influenceObjects|;
      if n == 0 {
        return Err(ZeroStep);
      }
      var recs;
      recs, r := StoreRecords(host.weights, n, influenceIndexes, host.inputPoints, host.normals);
      data := data.(verts := data.verts + Keyed(recs));
    }

    /**
     * `set_weights`: takes the given table when there is one, works out the
     * stored vertex of every row, rebuilds the rows and hands the weights to
     * the host. A warning or an exception leaves the host's weights alone.
     */
    method SetWeights(given: Option<HandlerData>, how: string) returns (r: Result<SetReport>)
      modifies this
      ensures Handle() == old(Handle())
      ensures data == if given.Some? then given.value else old(data)
      ensures var s := SetWeightsSpec(data, how, numberOfVerts, |influenceIndexes|, old(host));
        (s.Ok? ==> r == Ok(s.value.1) && host == old(host).(weights := s.value.0)) &&
        (s.Err? ==> r == Err(s.error) && host == old(host))
    {
      if given.Some? {
        data := given.value;
      }
      var verts := data.verts;
      var found := FindRowSources(verts, how, numberOfVerts, host);
      if found.Err? {
        return Err(found.error);
      }
      var sources := found.value;
      var width := |influenceIndexes|;
      var weights := BuildMatrix(verts, sources, width);
      if weights.Err? {
        return Err(weights.error);
      }
      host := host.(weights := weights.value);
      var known := how == "positions" || how == "normals";
      return Ok(SetReport(if known then how else "point order", |sources|, |verts|, how != "" && !known));
    }

    /**
     * `bake`: exports the weights into the table, then writes one string per
     * table entry onto vertices 0, 1, 2, ... under the year's id or, for a
     * snapshot, under the time stamp's id. It reports the id it wrote under.
     */
    method Bake(createSnapshot: bool, year: int, now: Stamp) returns (r: Result<int>)
      requires ValidStamp(now)
      modifies this
      ensures Handle() == old(Handle())
      ensures var (d, g) := GetWeightsSpec(old(data), influenceObjects, influenceIndexes, old(host));
        data == d && (g.Err? ==> r == Err(g.error) && host == old(host))
      ensures var (d, g) := GetWeightsSpec(old(data), influenceObjects, influenceIndexes, old(host));
        var id := BakeId(createSnapshot, year, now);
        var b := BakeSpec(old(host), |d.verts|, influenceIndexes, influenceObjects, id);
        g.Ok? ==> (b.Err? ==> r == Err(b.error) && host == old(host)) && (b.Ok? ==> r == Ok(id) && host == b.value)
    {
      var id := BakeId(createSnapshot, year, now);
      var g := GetWeights();
      if g.Err? {
        return Err(g.error);
      }
      var baked := BakeOnto(host, |data.verts|, influenceIndexes, influenceObjects, id);
      if baked.Err? {
        return Err(baked.error);
      }
      host := baked.value;
      return Ok(id);
    }

    /**
     * `unbake`: pick the snapshot id and give up when no blind-data type has
     * it; otherwise rebuild the skinCluster on the influences the host created
     * for the names the strings mention, re-initialise on it and write the row
     * read back from every stored vertex string. The new cluster starts with
     * the bind weights the host gave it, and keeps them when a row fails.
     */
    method Unbake(snapshotId: Option<int>, year: int, created: seq<Influence>, bindWeights: seq<Weight>, newName: Name)
      returns (r: Result<set<Name>>)
      modifies this
      ensures UnbakeId(snapshotId, year) !in old(host).blindTypes ==> r == Err(UnknownSnapshot(UnbakeId(snapshotId, year))) && unchanged(this)
      ensures UnbakeId(snapshotId, year) in old(host).blindTypes ==> Initialised(newName) && host.influences == created
      ensures var u := Unbaked(old(host), UnbakeId(snapshotId, year), created);
        UnbakeId(snapshotId, year) in old(host).blindTypes && u.Err? ==> host == old(host).(influences := created, weights := bindWeights) && r == Err(u.error)
      ensures var id := UnbakeId(snapshotId, year); var u := Unbaked(old(host), id, created);
        id in old(host).blindTypes && u.Ok? ==> host == old(host).(influences := created, weights := Flatten(u.value))
      ensures var id := UnbakeId(snapshotId, year); var u := Unbaked(old(host), id, created);
        id in old(host).blindTypes && u.Ok? ==> r == Ok(Requested(StoredTexts(old(host), id)))
    {
      var id := UnbakeId(snapshotId, year);
      if id !in host.blindTypes {
        return Err(UnknownSnapshot(id));
      }
      var stored := StoredDescending(StoreOf(host, id), |host.points|);
      var names := GatherNames(stored);
      host := host.(influences := created, weights := bindWeights);
      Init(newName);
      var ids := BuildShortIds(influenceObjects);
      var weights := UnbakeAll(StoreOf(host, id), |stored|, ids, |influenceIndexes|);
      if weights.Err? {
        return Err(weights.error);
      }
      host := host.(weights := weights.value);
      return Ok(names);
    }
  }
}
